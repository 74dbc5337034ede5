/**
 * The on-demand refresh gate: it opens often while the camera moves, rarely
 * while it is idle, and at once after a forced request. Whether the camera
 * moved (position, rotation or field of view beyond their thresholds) is an
 * input; the clock is a parameter.
 */
module ChangeDetection {

  /** A position in world space. */
  datatype Point = Point(x: real, y: real, z: real)

  /** A rotation quaternion, only ever copied. */
  datatype Rotation = Rotation(x: real, y: real, z: real, w: real)

  /** What the detector reads from the camera: position, rotation and vertical field of view. */
  datatype CameraPose = CameraPose(position: Point, rotation: Rotation, fov: real)

  /** The smallest interval the gate accepts. */
  const MinIntervalFloor: real := 0.01

  /** The smallest position threshold. */
  const PositionFloor: real := 0.01

  function Max(a: real, b: real): (r: real)
    ensures r >= a && r >= b && (r == a || r == b)
  {
    if a >= b then a else b
  }

  /** The interval in force: the short one while the camera moves, the idle one otherwise. */
  function Interval(moved: bool, minInterval: real, idleInterval: real): real {
    if moved then minInterval else idleInterval
  }

  /** Whether `ShouldUpdate` opens the gate at time `now`. */
  predicate GateOpens(force: bool, lastTime: real, now: real, interval: real) {
    force || now - lastTime >= interval
  }

  /**
   * The position threshold `CameraChanged` compares against: the relative
   * epsilon scaled by the planet radius, but never below 0.01.
   */
  function PositionThreshold(radius: real, posEpsRel: real): (eps: real)
    ensures eps >= PositionFloor && eps >= radius * posEpsRel
    ensures eps == PositionFloor || eps == radius * posEpsRel
  {
    Max(PositionFloor, radius * posEpsRel)
  }

  /** A forced request opens the gate whatever the time. */
  lemma ForcedOpens(lastTime: real, now: real, interval: real)
    ensures GateOpens(true, lastTime, now, interval)
  {
  }

  /**
   * Unforced, the gate never opens sooner than the shorter of the two
   * intervals after the last update, so never twice at one instant; and while
   * the camera is unmoved it stays shut until the idle interval has elapsed.
   */
  lemma UnforcedSpacing(lastTime: real, now: real, moved: bool, minInterval: real, idleInterval: real)
    requires minInterval >= MinIntervalFloor && idleInterval >= MinIntervalFloor
    ensures GateOpens(false, lastTime, now, Interval(moved, minInterval, idleInterval)) ==>
              now - lastTime >= MinIntervalFloor &&
              (minInterval <= idleInterval ==> now - lastTime >= minInterval)
    ensures !moved && now - lastTime < idleInterval ==>
              !GateOpens(false, lastTime, now, Interval(moved, minInterval, idleInterval))
  {
  }

  class CameraChangeDetector {
    const minInterval: real
    const idleInterval: real
    const posEpsRel: real
    const angEpsDeg: real
    const fovEpsDeg: real

    var posPrev: Point
    var rotPrev: Rotation
    var fovPrev: real
    var lastTime: real
    var force: bool

    /** Both intervals are at least 0.01 and the epsilons are not negative; only settings are read. */
    ghost predicate Valid() {
      && minInterval >= MinIntervalFloor && idleInterval >= MinIntervalFloor
      && posEpsRel >= 0.0 && angEpsDeg >= 0.0 && fovEpsDeg >= 0.0
    }

    /** Clamps the settings and takes the first snapshot of `cam` at time `now`. */
    constructor (cam: CameraPose, now: real, minInterval: real, idleInterval: real,
                 posEpsRelative: real, angEpsDeg: real, fovEpsDeg: real)
      ensures Valid()
      ensures this.minInterval == Max(MinIntervalFloor, minInterval)
      ensures this.idleInterval == Max(MinIntervalFloor, idleInterval)
      ensures posEpsRel == Max(0.0, posEpsRelative)
      ensures this.angEpsDeg == Max(0.0, angEpsDeg) && this.fovEpsDeg == Max(0.0, fovEpsDeg)
      ensures posPrev == cam.position && rotPrev == cam.rotation && fovPrev == cam.fov
      ensures lastTime == now && !force
    {
      this.minInterval := Max(MinIntervalFloor, minInterval);
      this.idleInterval := Max(MinIntervalFloor, idleInterval);
      posEpsRel := Max(0.0, posEpsRelative);
      this.angEpsDeg := Max(0.0, angEpsDeg);
      this.fovEpsDeg := Max(0.0, fovEpsDeg);
      posPrev, rotPrev, fovPrev := cam.position, cam.rotation, cam.fov;
      lastTime := now;
      force := false;
    }

    /** Makes the next `ShouldUpdate` open the gate. */
    method ForceOnce()
      modifies this`force
      ensures force
    {
      force := true;
    }

    /** Records the camera's pose and the time. */
    method Snapshot(cam: CameraPose, now: real)
      modifies this`posPrev, this`rotPrev, this`fovPrev, this`lastTime
      ensures posPrev == cam.position && rotPrev == cam.rotation && fovPrev == cam.fov && lastTime == now
    {
      posPrev, rotPrev, fovPrev := cam.position, cam.rotation, cam.fov;
      lastTime := now;
    }

    /**
     * Opens the gate when forced or when the interval for the camera's state
     * has elapsed since the last update; an open gate re-snapshots the camera
     * and clears the force flag, a shut one changes nothing.
     */
    method ShouldUpdate(cam: CameraPose, now: real, moved: bool) returns (update: bool)
      requires Valid()
      modifies this
      ensures update <==> old(force) || now - old(lastTime) >= Interval(moved, minInterval, idleInterval)
      ensures update ==> posPrev == cam.position && rotPrev == cam.rotation && fovPrev == cam.fov
                         && lastTime == now && !force
      ensures !update ==> posPrev == old(posPrev) && rotPrev == old(rotPrev) && fovPrev == old(fovPrev)
                          && lastTime == old(lastTime) && force == old(force)
    {
      var interval := Interval(moved, minInterval, idleInterval);
      if GateOpens(force, lastTime, now, interval) {
        Snapshot(cam, now);
        force := false;
        return true;
      }
      return false;
    }
  }
}
