/** The cursor relocation engine: monitor rectangles, per-device controllers
    and the relocator state machine that decides when to move the cursor. */
module MouseControl {
  import opened Wrappers
  import opened Ints

  datatype MousePos = MousePos(x: i32, y: i32)

  /** `MousePos::default()`. */
  const Origin: MousePos := MousePos(0, 0)

  datatype DeviceCtrlSetting = DeviceCtrlSetting(restrictInMonitor: bool, rememberPos: bool)

  /** A monitor rectangle in virtual-screen coordinates plus its DPI scale in percent. */
  datatype MonitorArea = MonitorArea(lefttop: MousePos, rigtbtm: MousePos, scale: u32)

  /** The areas a monitor rescan can produce for real monitors: non-degenerate rectangles. */
  predicate WellFormed(a: MonitorArea) {
    a.lefttop.x <= a.rigtbtm.x && a.lefttop.y <= a.rigtbtm.y
  }

  /** Containment with all four edges inclusive. Only a well-formed area contains
      anything. */
  predicate Contains(a: MonitorArea, p: MousePos): (r: bool)
    ensures r ==> WellFormed(a)
  {
    (a.lefttop.x <= p.x && p.x <= a.rigtbtm.x) && (a.lefttop.y <= p.y && p.y <= a.rigtbtm.y)
  }

  function Abs(v: int): nat {
    if v < 0 then -v else v
  }

  /** One axis of `capture_pos`: the lower edge is tested first, then the upper edge. */
  function ClampAxis(v: i32, lo: i32, hi: i32): (r: i32)
    ensures lo <= hi ==> lo <= r <= hi
    ensures lo <= v <= hi ==> r == v
  {
    if v < lo then lo else if v > hi then hi else v
  }

  /** Clamps `p` into `a`, each axis independently, to the exact edge. */
  function CapturePos(a: MonitorArea, p: MousePos): (r: MousePos)
    ensures WellFormed(a) ==> Contains(a, r)
    ensures Contains(a, p) ==> r == p
    ensures WellFormed(a) ==> forall q {:trigger Contains(a, q)} :: Contains(a, q) ==>
              Abs(r.x - p.x) <= Abs(q.x - p.x) && Abs(r.y - p.y) <= Abs(q.y - p.y)
    ensures r.x == ClampAxis(p.x, a.lefttop.x, a.rigtbtm.x)
    ensures r.y == ClampAxis(p.y, a.lefttop.y, a.rigtbtm.y)
  {
    MousePos(ClampAxis(p.x, a.lefttop.x, a.rigtbtm.x), ClampAxis(p.y, a.lefttop.y, a.rigtbtm.y))
  }

  /** A point is left alone by `capture_pos` exactly when the area contains it;
      this holds for every area, degenerate ones included. */
  lemma CaptureFixedIffContained(a: MonitorArea, p: MousePos)
    ensures CapturePos(a, p) == p <==> Contains(a, p)
  {
  }

  lemma CaptureIdempotent(a: MonitorArea, p: MousePos)
    requires WellFormed(a)
    ensures CapturePos(a, CapturePos(a, p)) == CapturePos(a, p)
  {
  }

  /** The unit-test table of `capture_pos`. */
  lemma CapturePosExamples()
    ensures var m := MonitorArea(MousePos(-100, 500), MousePos(300, 1500), 100);
      && CapturePos(m, MousePos(50, 700)) == MousePos(50, 700)
      && CapturePos(m, MousePos(-150, 1500)) == MousePos(-100, 1500)
      && CapturePos(m, MousePos(350, 500)) == MousePos(300, 500)
      && CapturePos(m, MousePos(-100, 490)) == MousePos(-100, 500)
      && CapturePos(m, MousePos(300, 3000)) == MousePos(300, 1500)
      && CapturePos(m, MousePos(-120, 1300)) == MousePos(-100, 1300)
      && CapturePos(m, MousePos(-200, 1800)) == MousePos(-100, 1500)
  {
  }

  /** `MonitorAreasList::locate`: the first area in list order that contains `p`. */
  function Locate(list: seq<MonitorArea>, p: MousePos): (r: Option<MonitorArea>)
    ensures r.None? <==> forall i :: 0 <= i < |list| ==> !Contains(list[i], p)
    ensures r.Some? ==> exists i :: 0 <= i < |list| && list[i] == r.value && Contains(list[i], p)
                                    && forall j :: 0 <= j < i ==> !Contains(list[j], p)
  {
    if |list| == 0 then None
    else if Contains(list[0], p) then Some(list[0])
    else
      var rest := Locate(list[1..], p);
      assert forall i :: 1 <= i < |list| ==> list[i] == list[1..][i - 1];
      rest
  }

  /** Any area with the first-match property is the one `Locate` returns. */
  lemma LocateIsFirstMatch(list: seq<MonitorArea>, p: MousePos, k: nat)
    requires k < |list| && Contains(list[k], p)
    requires forall j :: 0 <= j < k ==> !Contains(list[j], p)
    ensures Locate(list, p) == Some(list[k])
  {
  }

  // ---------------------------------------------------------------------------
  // DeviceController

  datatype DeviceController = DeviceController(
    id: u64,
    setting: DeviceCtrlSetting,
    lastActiveTick: u64,
    lastActivePos: MousePos,
    restricArea: Option<MonitorArea>)

  function NewController(id: u64, setting: DeviceCtrlSetting): (c: DeviceController)
    ensures c.id == id && c.setting == setting
    ensures GetLastPos(c).None?
    ensures c.restricArea.None?
  {
    DeviceController(id, setting, 0, Origin, None)
  }

  /** Replaces the policy; the cached restriction area never survives it. */
  function UpdateSettings(c: DeviceController, s: DeviceCtrlSetting): (r: DeviceController)
    ensures r.setting == s && r.restricArea.None?
    ensures r.id == c.id && GetLastPos(r) == GetLastPos(c)
  {
    ResetRestricArea(c).(setting := s)
  }

  function ResetRestricArea(c: DeviceController): (r: DeviceController)
    ensures r.restricArea.None?
    ensures r.id == c.id && r.setting == c.setting && GetLastPos(r) == GetLastPos(c)
  {
    c.(restricArea := None)
  }

  function UpdatePos(c: DeviceController, p: MousePos, tick: u64): (r: DeviceController)
    ensures tick > 0 ==> GetLastPos(r) == Some(p)
    ensures tick == 0 ==> GetLastPos(r).None?
    ensures r.id == c.id && r.setting == c.setting && r.restricArea == c.restricArea
  {
    c.(lastActivePos := p, lastActiveTick := tick)
  }

  /** The remembered position; a zero tick means the device was never active. */
  function GetLastPos(c: DeviceController): (r: Option<MousePos>)
    ensures r.Some? <==> c.lastActiveTick != 0
    ensures r.Some? ==> r.value == c.lastActivePos
  {
    if c.lastActiveTick > 0 then Some(c.lastActivePos) else None
  }

  // ---------------------------------------------------------------------------
  // MouseRelocator

  /** A staged one-shot relocation: target position and the scale of its monitor. */
  type Relocation = (MousePos, u32)

  datatype MouseRelocator = MouseRelocator(
    monitors: seq<MonitorArea>,
    curMouse: u64,
    curPos: MousePos,
    relocatePos: Option<Relocation>,
    toUpdateMonitors: bool)

  function NewRelocator(): (r: MouseRelocator)
    ensures r.monitors == [] && r.relocatePos.None? && !r.toUpdateMonitors
    ensures r.curMouse == 0 && r.curPos == Origin
  {
    MouseRelocator([], 0, Origin, None, false)
  }

  /** Swaps the topology and nothing else: a staged relocation survives it. */
  function UpdateMonitors(rel: MouseRelocator, monitors: seq<MonitorArea>): (r: MouseRelocator)
    ensures r.monitors == monitors
    ensures r.relocatePos == rel.relocatePos && r.curPos == rel.curPos
    ensures r.curMouse == rel.curMouse && r.toUpdateMonitors == rel.toUpdateMonitors
  {
    rel.(monitors := monitors)
  }

  datatype PosUpdate = PosUpdate(rel: MouseRelocator, ctrl: Option<DeviceController>)

  /** `on_pos_update`: called for every raw position with the active device's controller. */
  function OnPosUpdate(rel: MouseRelocator, optc: Option<DeviceController>, pos: MousePos): (r: PosUpdate)
    // the controller only ever gains a cached area, and only the cursor, the
    // staged relocation and the stale flag of the relocator can change
    ensures r.ctrl.None? <==> optc.None?
    ensures optc.Some? ==> r.ctrl.value == optc.value.(restricArea := r.ctrl.value.restricArea)
    ensures r.rel.monitors == rel.monitors && r.rel.curMouse == rel.curMouse
    // no policy: adopt
    ensures optc.None? || !optc.value.setting.restrictInMonitor ==>
              r == PosUpdate(rel.(curPos := pos), optc)
    // cached area: clamp when leaving it
    ensures optc.Some? && optc.value.setting.restrictInMonitor && optc.value.restricArea.Some? ==>
              var area := optc.value.restricArea.value;
              if Contains(area, pos) then r == PosUpdate(rel.(curPos := pos), optc)
              else r == PosUpdate(rel.(relocatePos := Some((CapturePos(area, pos), area.scale))), optc)
    // no cached area yet: look one up, or flag stale topology; never relocate
    ensures optc.Some? && optc.value.setting.restrictInMonitor && optc.value.restricArea.None? ==>
              var found := Locate(rel.monitors, pos);
              if found.Some? then
                r == PosUpdate(rel.(curPos := pos), Some(optc.value.(restricArea := found)))
              else r == PosUpdate(rel.(toUpdateMonitors := true), optc)
  {
    if optc.Some? && optc.value.setting.restrictInMonitor then
      var c := optc.value;
      if c.restricArea.Some? then
        var area := c.restricArea.value;
        var newPos := CapturePos(area, pos);
        CaptureFixedIffContained(area, pos);
        if newPos != pos then PosUpdate(rel.(relocatePos := Some((newPos, area.scale))), optc)
        else PosUpdate(rel.(curPos := pos), optc)
      else
        match Locate(rel.monitors, pos)
        case Some(area) => PosUpdate(rel.(curPos := pos), Some(c.(restricArea := Some(area))))
        case None => PosUpdate(rel.(toUpdateMonitors := true), optc)
    else
      PosUpdate(rel.(curPos := pos), optc)
  }

  /** A locked device's cursor stays inside its cached area. */
  predicate CursorInLockedArea(rel: MouseRelocator, c: DeviceController) {
    c.setting.restrictInMonitor && c.restricArea.Some? ==> Contains(c.restricArea.value, rel.curPos)
  }

  /** `on_pos_update` keeps the locked cursor inside its area, and any relocation it
      stages for a well-formed area lands inside that area. */
  lemma OnPosUpdateKeepsLock(rel: MouseRelocator, c: DeviceController, pos: MousePos)
    requires CursorInLockedArea(rel, c)
    ensures var r := OnPosUpdate(rel, Some(c), pos);
      && CursorInLockedArea(r.rel, r.ctrl.value)
      && (c.restricArea.Some? && WellFormed(c.restricArea.value) && r.rel.relocatePos != rel.relocatePos ==>
            Contains(c.restricArea.value, r.rel.relocatePos.value.0))
  {
    var r := OnPosUpdate(rel, Some(c), pos);
    if c.setting.restrictInMonitor && c.restricArea.None? {
      var found := Locate(rel.monitors, pos);
      if found.Some? {
        var i :| 0 <= i < |rel.monitors| && rel.monitors[i] == found.value && Contains(rel.monitors[i], pos);
        assert Contains(r.ctrl.value.restricArea.value, r.rel.curPos);
      }
    }
  }

  /** The first sample after a device acquires the lock policy never stages a relocation. */
  lemma FirstLockedSampleNeverRelocates(rel: MouseRelocator, c: DeviceController, pos: MousePos)
    requires c.setting.restrictInMonitor && c.restricArea.None?
    ensures var r := OnPosUpdate(rel, Some(c), pos);
      && r.rel.relocatePos == rel.relocatePos
      && (r.ctrl.value.restricArea.Some? || r.rel.toUpdateMonitors)
      && (r.ctrl.value.restricArea.Some? ==> Contains(r.ctrl.value.restricArea.value, pos))
  {
    var found := Locate(rel.monitors, pos);
    if found.Some? {
      var i :| 0 <= i < |rel.monitors| && rel.monitors[i] == found.value && Contains(rel.monitors[i], pos);
    }
  }

  datatype MouseUpdate = MouseUpdate(rel: MouseRelocator, ctrl: DeviceController)

  /** `on_mouse_update`: an event has been attributed to device `c` at `tick`. */
  function OnMouseUpdate(rel: MouseRelocator, c: DeviceController, tick: u64): (r: MouseUpdate)
    ensures r.rel.curMouse == c.id
    ensures r.rel.monitors == rel.monitors && r.rel.curPos == rel.curPos
    ensures (rel.curMouse != c.id && c.setting.rememberPos && GetLastPos(c).Some?) ==>
              var last := GetLastPos(c).value;
              var area := Locate(rel.monitors, last);
              && r.ctrl == c
              && (area.Some? ==> r.rel == rel.(curMouse := c.id, relocatePos := Some((last, area.value.scale))))
              && (area.None? ==> r.rel == rel.(curMouse := c.id, toUpdateMonitors := true))
    ensures !(rel.curMouse != c.id && c.setting.rememberPos && GetLastPos(c).Some?) ==>
              && r.rel == rel.(curMouse := c.id)
              && r.ctrl == UpdatePos(c, rel.curPos, tick)
  {
    var rel1 := if rel.curMouse != c.id then rel.(curMouse := c.id) else rel;
    if rel.curMouse != c.id && c.setting.rememberPos then
      match GetLastPos(c)
      case Some(last) =>
        (match Locate(rel1.monitors, last)
         case Some(area) => MouseUpdate(rel1.(relocatePos := Some((last, area.scale))), c)
         case None => MouseUpdate(rel1.(toUpdateMonitors := true), c))
      case None => MouseUpdate(rel1, UpdatePos(c, rel1.curPos, tick))
    else
      MouseUpdate(rel1, UpdatePos(c, rel1.curPos, tick))
  }

  /** `pop_relocate_pos`: hands out the staged relocation once. */
  function PopRelocatePos(rel: MouseRelocator): (r: (Option<Relocation>, MouseRelocator))
    ensures r.0 == rel.relocatePos
    ensures r.1 == rel.(relocatePos := None)
  {
    (rel.relocatePos, rel.(relocatePos := None))
  }

  lemma PopIsOneShot(rel: MouseRelocator)
    ensures PopRelocatePos(PopRelocatePos(rel).1).0.None?
  {
  }

  /** Whether a sample found no monitor since the last rescan: the flag `OnPosUpdate`
      raises and `DoneUpdateMonitors` clears. */
  function NeedUpdateMonitors(rel: MouseRelocator): (r: bool)
    ensures r == rel.toUpdateMonitors
  {
    rel.toUpdateMonitors
  }

  function DoneUpdateMonitors(rel: MouseRelocator): (r: MouseRelocator)
    ensures !NeedUpdateMonitors(r)
    ensures r == rel.(toUpdateMonitors := false)
  {
    rel.(toUpdateMonitors := false)
  }

  /** Remember-position round trip: device `d` (already owning the cursor) records the
      cursor at a positive tick, another device takes over, and when `d` returns the
      relocator stages a jump back to exactly the recorded position, or flags stale
      topology when that position lies on no monitor. */
  lemma SwitchBackRestoresPosition(rel: MouseRelocator, d: DeviceController, e: DeviceController,
                                   t1: u64, t2: u64, t3: u64)
    requires rel.curMouse == d.id && e.id != d.id
    requires d.setting.rememberPos && t1 > 0
    ensures var s1 := OnMouseUpdate(rel, d, t1);
            var s2 := OnMouseUpdate(s1.rel, e, t2);
            var s3 := OnMouseUpdate(s2.rel, s1.ctrl, t3);
            var area := Locate(rel.monitors, rel.curPos);
            && (area.Some? ==> s3.rel.relocatePos == Some((rel.curPos, area.value.scale)))
            && (area.None? ==> s3.rel.toUpdateMonitors)
            && s3.rel.curMouse == d.id
  {
    var s1 := OnMouseUpdate(rel, d, t1);
    assert s1.ctrl == UpdatePos(d, rel.curPos, t1);
    assert GetLastPos(s1.ctrl) == Some(rel.curPos);
    var s2 := OnMouseUpdate(s1.rel, e, t2);
    assert s2.rel.monitors == rel.monitors && s2.rel.curMouse == e.id;
  }
}
