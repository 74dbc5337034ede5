/**
 * The creation queue: a FIFO of tile keys with a membership set that keeps a
 * key from being queued twice, drained a bounded number of successful
 * creations at a time.
 */
module Scheduling {
  import opened Seqs
  import opened TileKeys

  /** The queue after enqueuing `key` unless it is already waiting. */
  function Enqueued(q: seq<TileKey>, key: TileKey): (r: seq<TileKey>)
    ensures key in r && |r| >= |q|
    ensures forall k :: k in r <==> k in q || k == key
  {
    if key in q then q else q + [key]
  }

  /** Number of occurrences of `key` in `q`. */
  function Occurrences(q: seq<TileKey>, key: TileKey): nat {
    if q == [] then 0 else (if q[0] == key then 1 else 0) + Occurrences(q[1..], key)
  }

  lemma {:induction false} NoDupOccurrences(q: seq<TileKey>, key: TileKey)
    requires NoDup(q)
    ensures Occurrences(q, key) == if key in q then 1 else 0
  {
    if q != [] {
      NoDupOccurrences(q[1..], key);
    }
  }

  /**
   * Enqueuing a key twice before it is drained leaves it in the queue exactly
   * once, and a duplicate-free queue stays duplicate-free.
   */
  lemma EnqueueTwice(q: seq<TileKey>, key: TileKey)
    requires NoDup(q)
    ensures Enqueued(Enqueued(q, key), key) == Enqueued(q, key)
    ensures NoDup(Enqueued(q, key))
    ensures Occurrences(Enqueued(Enqueued(q, key), key), key) == 1
  {
    if key !in q {
      NoDupConcat(q, [key]);
    }
    NoDupOccurrences(Enqueued(q, key), key);
  }

  /**
   * How many keys `Drain(budget, create)` takes from the front of `q`: it stops
   * when `budget` creations have succeeded or the queue is empty.
   */
  function DrainLength(q: seq<TileKey>, budget: int, create: TileKey -> bool): (n: nat)
    ensures n <= |q|
  {
    if budget <= 0 || q == [] then 0
    else 1 + DrainLength(q[1..], if create(q[0]) then budget - 1 else budget, create)
  }

  /** The number of keys in `ks` whose creation succeeds. */
  function Successes(ks: seq<TileKey>, create: TileKey -> bool): (n: nat)
    ensures n <= |ks|
  {
    if ks == [] then 0 else Successes(ks[..|ks| - 1], create) + (if create(ks[|ks| - 1]) then 1 else 0)
  }

  lemma {:induction false} SuccessesCons(k: TileKey, ks: seq<TileKey>, create: TileKey -> bool)
    ensures Successes([k] + ks, create) == (if create(k) then 1 else 0) + Successes(ks, create)
    decreases |ks|
  {
    if ks != [] {
      var init := ks[..|ks| - 1];
      assert ([k] + ks)[..|ks|] == [k] + init;
      SuccessesCons(k, init, create);
    } else {
      assert ([k] + ks)[..0] == [];
    }
  }

  /**
   * A drain succeeds at most `max(budget, 0)` times; if it leaves keys in the
   * queue, it stopped because exactly that many creations succeeded.
   */
  lemma {:induction false} DrainBudget(q: seq<TileKey>, budget: int, create: TileKey -> bool)
    ensures var n := DrainLength(q, budget, create);
            && Successes(q[..n], create) <= (if budget < 0 then 0 else budget)
            && (n < |q| ==> Successes(q[..n], create) == (if budget < 0 then 0 else budget))
  {
    var n := DrainLength(q, budget, create);
    if budget <= 0 || q == [] {
      assert q[..n] == [];
    } else {
      var b1 := if create(q[0]) then budget - 1 else budget;
      DrainBudget(q[1..], b1, create);
      assert q[..n] == [q[0]] + q[1..][..n - 1];
      SuccessesCons(q[0], q[1..][..n - 1], create);
    }
  }

  /** With no budget, a drain takes nothing. */
  lemma DrainNothing(q: seq<TileKey>, budget: int, create: TileKey -> bool)
    requires budget <= 0
    ensures DrainLength(q, budget, create) == 0
  {
  }

  /** When every creation succeeds, a drain takes `min(budget, |q|)` keys. */
  lemma {:induction false} DrainAllSucceed(q: seq<TileKey>, budget: int, create: TileKey -> bool)
    requires forall k :: create(k)
    ensures DrainLength(q, budget, create) == if budget <= 0 then 0 else if budget < |q| then budget else |q|
  {
    if budget > 0 && q != [] {
      DrainAllSucceed(q[1..], budget - 1, create);
    }
  }

  /**
   * After the first `i` keys of a drain, the rest of the drain is a drain of
   * the remaining queue with the budget reduced by the successes so far.
   */
  lemma {:induction false} DrainStep(q: seq<TileKey>, budget: int, create: TileKey -> bool, i: nat)
    requires i <= |q|
    requires DrainLength(q, budget, create) >= i
    ensures var done := Successes(q[..i], create);
            DrainLength(q, budget, create) == i + DrainLength(q[i..], budget - done, create)
  {
    if i > 0 {
      var b1 := if create(q[0]) then budget - 1 else budget;
      assert budget > 0 && q != [];
      DrainStep(q[1..], b1, create, i - 1);
      assert q[..i] == [q[0]] + q[1..][..i - 1];
      SuccessesCons(q[0], q[1..][..i - 1], create);
      assert q[1..][i - 1..] == q[i..];
    } else {
      assert q[..0] == [];
    }
  }

  class TerrainUpdateScheduler {
    var queue: seq<TileKey>
    var enqueued: set<TileKey>

    /** The membership set is the set of queued keys, and no key is queued twice. */
    ghost predicate Valid()
      reads this
    {
      NoDup(queue) && enqueued == Elems(queue)
    }

    constructor ()
      ensures Valid() && queue == [] && enqueued == {}
    {
      queue := [];
      enqueued := {};
    }

    /** `Count`: the queue length, which is also the size of the membership set. */
    function Count(): (n: nat)
      reads this
      requires Valid()
      ensures n == |queue| && n == |enqueued|
    {
      NoDupCard(queue);
      |queue|
    }

    /** Appends `key` unless it is already waiting; reports whether it did. */
    method EnqueueIfAbsent(key: TileKey) returns (added: bool)
      requires Valid()
      modifies this
      ensures Valid()
      ensures added <==> key !in old(queue)
      ensures queue == Enqueued(old(queue), key) && enqueued == old(enqueued) + {key}
    {
      if key in enqueued {
        return false;
      }
      NoDupConcat(queue, [key]);
      queue := queue + [key];
      enqueued := enqueued + {key};
      return true;
    }

    /**
     * Dequeues from the front, calling `create` on each key, until `budget`
     * creations have succeeded or the queue is empty. A key whose creation
     * fails is dropped. Returns the dequeued keys, in order, and the number of
     * successes.
     */
    method Drain(budget: int, create: TileKey -> bool) returns (taken: seq<TileKey>, done: int)
      requires Valid()
      modifies this
      ensures Valid()
      ensures taken == old(queue)[..DrainLength(old(queue), budget, create)]
      ensures queue == old(queue)[|taken|..]
      ensures done == Successes(taken, create)
    {
      ghost var q0 := queue;
      taken := [];
      done := 0;
      var i := 0;
      while done < budget && queue != []
        invariant i <= |q0| && DrainLength(q0, budget, create) >= i
        invariant taken == q0[..i] && queue == q0[i..] && done == Successes(taken, create)
        invariant Valid()
        decreases |queue|
      {
        DrainStep(q0, budget, create, i);
        var key := Dequeue();
        assert q0[..i + 1] == q0[..i] + [key];
        assert (taken + [key])[..|taken|] == taken;
        if create(key) {
          done := done + 1;
        }
        taken := taken + [key];
        i := i + 1;
      }
      DrainStep(q0, budget, create, i);
    }

    /** Takes the front key off the queue and out of the membership set. */
    method Dequeue() returns (key: TileKey)
      requires Valid() && queue != []
      modifies this
      ensures Valid()
      ensures key == old(queue)[0] && queue == old(queue)[1..] && enqueued == old(enqueued) - {key}
    {
      key := queue[0];
      assert queue[0] !in queue[1..];
      queue := queue[1..];
      enqueued := enqueued - {key};
    }

    method Clear()
      modifies this
      ensures Valid() && queue == [] && enqueued == {}
    {
      queue := [];
      enqueued := {};
    }
  }
}
