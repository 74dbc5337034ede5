/**
 * Identity of one grid cell on one cube face: `(face, x, y)` stored as a byte
 * and two unsigned 16-bit integers, with field-wise equality, a 32-bit
 * multiplicative hash and the string form `F{face}_X{x}_Y{y}`.
 */
module TileKeys {
  import opened Wrappers

  newtype byte = b: int | 0 <= b < 0x100
  newtype ushort = u: int | 0 <= u < 0x1_0000

  datatype TileKey = TileKey(face: byte, x: ushort, y: ushort)

  /**
   * The struct constructor `TileKey(int face, int x, int y)`: the narrowing
   * casts keep the low 8 (respectively 16) bits of each argument.
   */
  function MakeKey(face: int, x: int, y: int): (k: TileKey)
    ensures (k.face as int - face) % 0x100 == 0
    ensures (k.x as int - x) % 0x1_0000 == 0
    ensures (k.y as int - y) % 0x1_0000 == 0
    ensures 0 <= face < 0x100 && 0 <= x < 0x1_0000 && 0 <= y < 0x1_0000 ==>
              k.face as int == face && k.x as int == x && k.y as int == y
  {
    TileKey((face % 0x100) as byte, (x % 0x1_0000) as ushort, (y % 0x1_0000) as ushort)
  }

  /** Arguments that differ by a multiple of the field width build the same key. */
  lemma MakeKeyWraps(face: int, x: int, y: int, i: int, j: int, l: int)
    ensures MakeKey(face + 0x100 * i, x + 0x1_0000 * j, y + 0x1_0000 * l) == MakeKey(face, x, y)
  {
    var a, b := MakeKey(face + 0x100 * i, x + 0x1_0000 * j, y + 0x1_0000 * l), MakeKey(face, x, y);
    assert (a.face as int - b.face as int) % 0x100 == 0;
    assert (a.x as int - b.x as int) % 0x1_0000 == 0;
    assert (a.y as int - b.y as int) % 0x1_0000 == 0;
  }

  /** `Equals(TileKey)`: field-wise comparison, which is exactly value identity. */
  function Equals(a: TileKey, b: TileKey): (r: bool)
    ensures r <==> a == b
  {
    a.face == b.face && a.x == b.x && a.y == b.y
  }

  /** `Equals` is an equivalence relation. */
  lemma EqualsIsEquivalence(a: TileKey, b: TileKey, c: TileKey)
    ensures Equals(a, a)
    ensures Equals(a, b) ==> Equals(b, a)
    ensures Equals(a, b) && Equals(b, c) ==> Equals(a, c)
  {
  }

  /** What `Equals(object)` may be handed: null, a boxed key, or any other object. */
  datatype Object = Null | BoxedKey(key: TileKey) | OtherObject(id: nat)

  /** `Equals(object)`: false unless the object is a boxed key, then the typed comparison. */
  function EqualsObject(a: TileKey, obj: Object): (r: bool)
    ensures r <==> obj == BoxedKey(a)
    ensures obj.BoxedKey? ==> r == Equals(a, obj.key)
  {
    obj.BoxedKey? && Equals(a, obj.key)
  }

  // ---- hash -------------------------------------------------------------

  const TWO32: int := 0x1_0000_0000

  function Pow2(n: nat): (r: nat)
    ensures r >= 1
  {
    if n == 0 then 1 else 2 * Pow2(n - 1)
  }

  /** Bitwise exclusive or of two non-negative integers, bit by bit from the lowest. */
  function Xor(a: nat, b: nat): nat
    decreases a + b
  {
    if a == 0 && b == 0 then 0 else 2 * Xor(a / 2, b / 2) + (a % 2 + b % 2) % 2
  }

  /** Bit `i` of `n`, counting from the lowest. */
  predicate Bit(n: nat, i: nat) {
    if i == 0 then n % 2 == 1 else Bit(n / 2, i - 1)
  }

  /** `Xor` is the bitwise exclusive or: each bit of the result is set exactly when the operands' bits differ. */
  lemma {:induction false} XorBits(a: nat, b: nat, i: nat)
    ensures Bit(Xor(a, b), i) <==> Bit(a, i) != Bit(b, i)
    decreases i
  {
    if a == 0 && b == 0 {
      ZeroBits(i);
    } else if i > 0 {
      assert Xor(a, b) / 2 == Xor(a / 2, b / 2);
      XorBits(a / 2, b / 2, i - 1);
    }
  }

  lemma {:induction false} ZeroBits(i: nat)
    ensures !Bit(0, i)
  {
    if i > 0 {
      ZeroBits(i - 1);
    }
  }

  /** Exclusive or of two `n`-bit values is an `n`-bit value. */
  lemma {:induction false} XorBound(a: nat, b: nat, n: nat)
    requires a < Pow2(n) && b < Pow2(n)
    ensures Xor(a, b) < Pow2(n)
    decreases n
  {
    if !(a == 0 && b == 0) {
      assert n > 0;
      XorBound(a / 2, b / 2, n - 1);
    }
  }

  /** Exclusive or with zero is the identity. */
  lemma {:induction false} XorZero(a: nat)
    ensures Xor(a, 0) == a
    decreases a
  {
    if a != 0 {
      XorZero(a / 2);
    }
  }

  lemma {:induction false} Pow2Add(a: nat, b: nat)
    ensures Pow2(a + b) == Pow2(a) * Pow2(b)
  {
    if a > 0 {
      Pow2Add(a - 1, b);
    }
  }

  lemma Pow2At32()
    ensures Pow2(32) == TWO32
  {
    assert Pow2(4) == 16;
    Pow2Add(4, 4);
    Pow2Add(8, 8);
    Pow2Add(16, 16);
  }

  /** Reinterprets an unsigned 32-bit value as a two's-complement `int`. */
  function ToInt32(u: nat): (r: int)
    requires u < TWO32
    ensures -0x8000_0000 <= r < 0x8000_0000
    ensures (r - u) % TWO32 == 0
  {
    if u < 0x8000_0000 then u else u - TWO32
  }

  /** `a * c` in unchecked 32-bit arithmetic, read as an unsigned value. */
  function WrapMul(a: nat, c: nat): (r: nat)
    ensures r < TWO32
    ensures (r - a * c) % TWO32 == 0
  {
    (a * c) % TWO32
  }

  /** `GetHashCode`: `face*73856093 ^ x*19349663 ^ y*83492791`, wrapping at 32 bits. */
  function Hash(k: TileKey): (h: int)
    ensures -0x8000_0000 <= h < 0x8000_0000
  {
    var p1, p2, p3 := WrapMul(k.face as int, 73856093), WrapMul(k.x as int, 19349663), WrapMul(k.y as int, 83492791);
    Pow2At32();
    XorBound(p1, p2, 32);
    XorBound(Xor(p1, p2), p3, 32);
    ToInt32(Xor(Xor(p1, p2), p3))
  }

  /** The hash agrees with `Equals`: keys that compare equal hash equally. */
  lemma HashRespectsEquals(a: TileKey, b: TileKey)
    requires Equals(a, b)
    ensures Hash(a) == Hash(b)
  {
  }

  /** The products overflow: face 30 alone already hashes to a negative value. */
  lemma HashWrapsAround()
    ensures Hash(TileKey(29, 0, 0)) == 2141826697
    ensures Hash(TileKey(30, 0, 0)) == -2079284506
  {
    assert WrapMul(0, 19349663) == 0 && WrapMul(0, 83492791) == 0;
    assert WrapMul(29, 73856093) == 2141826697;
    assert WrapMul(30, 73856093) == 2215682790;
    XorZero(2141826697);
    XorZero(2215682790);
  }

  // ---- string form --------------------------------------------------------

  predicate IsDigit(c: char) {
    '0' <= c <= '9'
  }

  predicate AllDigits(s: string) {
    forall i :: 0 <= i < |s| ==> IsDigit(s[i])
  }

  /** Decimal rendering of a natural number, as `$"{n}"` produces it. */
  function Decimal(n: nat): (s: string)
    ensures |s| > 0 && AllDigits(s)
  {
    var d := [(n % 10) as char + '0'];
    if n < 10 then d else Decimal(n / 10) + d
  }

  /** The number a non-empty string of digits denotes. */
  function DigitsValue(s: string): nat
    requires AllDigits(s)
  {
    if s == [] then 0 else DigitsValue(s[..|s| - 1]) * 10 + (s[|s| - 1] - '0') as int
  }

  lemma {:induction false} DecimalRoundTrip(n: nat)
    ensures DigitsValue(Decimal(n)) == n
  {
    var d := [(n % 10) as char + '0'];
    if n >= 10 {
      DecimalRoundTrip(n / 10);
      assert (Decimal(n / 10) + d)[..|Decimal(n / 10) + d| - 1] == Decimal(n / 10);
    }
  }

  /** `ToString`: `F{face}_X{x}_Y{y}`. */
  function KeyString(k: TileKey): string {
    "F" + Decimal(k.face as nat) + "_X" + Decimal(k.x as nat) + "_Y" + Decimal(k.y as nat)
  }

  /** Splits `s` at the first occurrence of `c`, dropping that occurrence. */
  function SplitAt(s: string, c: char): Option<(string, string)> {
    if s == [] then None
    else if s[0] == c then Some(([], s[1..]))
    else match SplitAt(s[1..], c)
      case None => None
      case Some(parts) => Some(([s[0]] + parts.0, parts.1))
  }

  lemma {:induction false} SplitAtFirst(p: string, c: char, q: string)
    requires c !in p
    ensures SplitAt(p + [c] + q, c) == Some((p, q))
  {
    if p == [] {
      assert p + [c] + q == [c] + q;
    } else {
      var s := p + [c] + q;
      assert s[0] == p[0] && s[1..] == p[1..] + [c] + q;
      SplitAtFirst(p[1..], c, q);
      assert [p[0]] + p[1..] == p;
    }
  }

  /** Reads a number below `bound` from a non-empty string of digits. */
  function ParseBounded(s: string, bound: nat): Option<nat> {
    if s != [] && AllDigits(s) && DigitsValue(s) < bound then Some(DigitsValue(s)) else None
  }

  /** Inverse of `KeyString`: recovers the key from its string form. */
  function ParseKey(s: string): Option<TileKey> {
    if |s| == 0 || s[0] != 'F' then None else
    match SplitAt(s[1..], '_')
    case None => None
    case Some(p1) =>
      if |p1.1| == 0 || p1.1[0] != 'X' then None else
      match SplitAt(p1.1[1..], '_')
      case None => None
      case Some(p2) =>
        if |p2.1| == 0 || p2.1[0] != 'Y' then None else
        match (ParseBounded(p1.0, 0x100), ParseBounded(p2.0, 0x1_0000), ParseBounded(p2.1[1..], 0x1_0000))
        case (Some(f), Some(x), Some(y)) => Some(TileKey(f as byte, x as ushort, y as ushort))
        case _ => None
  }

  lemma ParseBoundedDecimal(n: nat, bound: nat)
    requires n < bound
    ensures ParseBounded(Decimal(n), bound) == Some(n)
  {
    DecimalRoundTrip(n);
  }

  /** Reading back the string form of a key yields the key. */
  lemma ParseKeyString(k: TileKey)
    ensures ParseKey(KeyString(k)) == Some(k)
  {
    var f, x, y := Decimal(k.face as nat), Decimal(k.x as nat), Decimal(k.y as nat);
    var s := KeyString(k);
    assert '_' !in f && '_' !in x by {
      assert AllDigits(f) && AllDigits(x);
    }
    assert s[1..] == f + ['_'] + ("X" + x + "_Y" + y);
    SplitAtFirst(f, '_', "X" + x + "_Y" + y);
    assert ("X" + x + "_Y" + y)[1..] == x + ['_'] + ("Y" + y);
    SplitAtFirst(x, '_', "Y" + y);
    assert ("Y" + y)[1..] == y;
    ParseBoundedDecimal(k.face as nat, 0x100);
    ParseBoundedDecimal(k.x as nat, 0x1_0000);
    ParseBoundedDecimal(k.y as nat, 0x1_0000);
  }

  /** The fixed separators make the string form injective. */
  lemma KeyStringInjective(a: TileKey, b: TileKey)
    requires KeyString(a) == KeyString(b)
    ensures a == b
  {
    ParseKeyString(a);
    ParseKeyString(b);
  }
}
