/** The Windows device processor: the registry of raw-input devices, the DPI scaling
    between physical and logical pixels, the rate-limited rescans, and the event
    handlers that drive the relocator. The host's device list, monitor list, clocks and
    cursor calls are inputs and outputs. */
module WinProcessor {
  import opened Wrappers
  import opened Ints
  import opened Errors
  import opened Utils
  import opened MouseControl
  import opened WinWrap

  const RATELIMIT_UPDATE_MONITOR_ONCE_MS: u64 := 1000
  const RATELIMIT_UPDATE_DEVICE_ONCE_MS: u64 := 1000

  // ---------------------------------------------------------------------------
  // Devices

  /** `handle.0 as u64`: the bits of a signed handle read as unsigned. */
  function HandleId(h: isize): (r: u64)
    ensures h >= 0 ==> r == h
    ensures h < 0 ==> r >= 0x8000_0000_0000_0000
  {
    if h >= 0 then h else h + 0x1_0000_0000_0000_0000
  }

  /** Distinct handles give distinct controller ids. */
  lemma HandleIdInjective(a: isize, b: isize)
    ensures HandleId(a) == HandleId(b) <==> a == b
  {
  }

  /** `init_device_control`: no monitor lock; only mice remember their position. */
  function InitDeviceControl(handle: isize, typ: RawDeviceType): (c: DeviceController)
    ensures c.id == HandleId(handle)
    ensures !c.setting.restrictInMonitor
    ensures c.setting.rememberPos <==> typ == Mouse
    ensures GetLastPos(c).None? && c.restricArea.None?
  {
    NewController(HandleId(handle), DeviceCtrlSetting(false, typ == Mouse))
  }

  /** A registered device: its raw-input handle, its kind and its controller. */
  datatype WinDevice = WinDevice(handle: isize, typ: RawDeviceType, ctrl: DeviceController)

  /** One entry of the host's raw-input device list, and whether querying its raw-input
      info succeeded. */
  datatype RawDeviceEntry = RawDeviceEntry(handle: isize, dwType: u32, infoOk: bool)

  /** The entries `collect_all_raw_devices` keeps: mice and HID devices whose info could
      be read. */
  predicate Collected(e: RawDeviceEntry) {
    (FromRid(e.dwType) == Mouse || FromRid(e.dwType) == Hid) && e.infoOk
  }

  /** `collect_device_infos` for an entry whose info could be read. */
  function DeviceOf(e: RawDeviceEntry): (d: WinDevice)
    ensures d.handle == e.handle && d.typ == FromRid(e.dwType)
    ensures d.ctrl == InitDeviceControl(e.handle, d.typ)
  {
    var typ := FromRid(e.dwType);
    WinDevice(e.handle, typ, InitDeviceControl(e.handle, typ))
  }

  /** The device filter of `collect_all_raw_devices`, in list order. */
  function CollectDevices(list: seq<RawDeviceEntry>): (r: seq<WinDevice>)
    ensures |r| <= |list|
    ensures forall i :: 0 <= i < |r| ==> r[i].typ == Mouse || r[i].typ == Hid
    ensures forall i :: 0 <= i < |r| ==> r[i].ctrl.restricArea.None?
    decreases |list|
  {
    if |list| == 0 then []
    else (if Collected(list[0]) then [DeviceOf(list[0])] else []) + CollectDevices(list[1..])
  }

  /** A device is collected exactly when some kept entry of the list produced it. */
  lemma {:induction false} CollectDevicesMembers(list: seq<RawDeviceEntry>, d: WinDevice)
    ensures d in CollectDevices(list) <==>
              exists i :: 0 <= i < |list| && Collected(list[i]) && d == DeviceOf(list[i])
    decreases |list|
  {
    if |list| > 0 {
      CollectDevicesMembers(list[1..], d);
      if exists i :: 0 <= i < |list| && Collected(list[i]) && d == DeviceOf(list[i]) {
        var i :| 0 <= i < |list| && Collected(list[i]) && d == DeviceOf(list[i]);
        if i > 0 {
          assert list[1..][i - 1] == list[i];
        }
      }
      if exists i :: 0 <= i < |list| - 1 && Collected(list[1..][i]) && d == DeviceOf(list[1..][i]) {
        var i :| 0 <= i < |list| - 1 && Collected(list[1..][i]) && d == DeviceOf(list[1..][i]);
        assert list[1..][i] == list[i + 1];
      }
    }
  }

  /** `collect_all_raw_devices`: only a failing list call fails; a device whose info
      cannot be read is dropped silently. */
  function CollectAllRawDevices(list: Result<seq<RawDeviceEntry>, Error>): (r: Result<seq<WinDevice>, Error>)
    ensures r.Ok? <==> list.Ok?
    ensures r.Err? ==> r.error == list.error
    ensures r.Ok? ==> r.value == CollectDevices(list.value)
  {
    match list
    case Ok(entries) => Ok(CollectDevices(entries))
    case Err(e) => Err(e)
  }

  // ---------------------------------------------------------------------------
  // WinDeviceSet

  /** The registry: the devices, the index of each handle, and the active device. */
  datatype WinDeviceSet = WinDeviceSet(devs: seq<WinDevice>, indexs: map<isize, nat>, activeId: Option<nat>)

  /** `m` indexes `devs`: each handle maps to the last device carrying it, and every
      device's handle is mapped. */
  predicate IsIndexMap(devs: seq<WinDevice>, m: map<isize, nat>) {
    && (forall h :: h in m ==> m[h] < |devs| && devs[m[h]].handle == h)
    && (forall i :: 0 <= i < |devs| ==> devs[i].handle in m)
    && (forall h, j :: h in m && m[h] < j < |devs| ==> devs[j].handle != h)
  }

  /** The handle map `rebuild` collects, one entry per device in list order, so a later
      device with the same handle overrides an earlier one. */
  function IndexMap(devs: seq<WinDevice>): (r: map<isize, nat>)
    ensures IsIndexMap(devs, r)
    decreases |devs|
  {
    if |devs| == 0 then map[]
    else
      var init := devs[..|devs| - 1];
      IndexMapSnoc(init, devs[|devs| - 1], IndexMap(init), devs);
      IndexMap(init)[devs[|devs| - 1].handle := |devs| - 1]
  }

  lemma IndexMapSnoc(init: seq<WinDevice>, d: WinDevice, m: map<isize, nat>, devs: seq<WinDevice>)
    requires IsIndexMap(init, m) && devs == init + [d]
    ensures IsIndexMap(devs, m[d.handle := |init|])
  {
    assert forall i :: 0 <= i < |init| ==> devs[i] == init[i];
  }

  /** Every handle maps to a device with that handle, every device's handle is mapped,
      and the active index is in range. */
  predicate Valid(s: WinDeviceSet) {
    && (forall h :: h in s.indexs ==> s.indexs[h] < |s.devs| && s.devs[s.indexs[h]].handle == h)
    && (forall i :: 0 <= i < |s.devs| ==> s.devs[i].handle in s.indexs)
    && (s.activeId.Some? ==> s.activeId.value < |s.devs|)
  }

  function NewDeviceSet(): (r: WinDeviceSet)
    ensures Valid(r) && r.devs == [] && r.activeId.None?
  {
    WinDeviceSet([], map[], None)
  }

  /** `active`: the device at the active index (`devs.get_mut`, so nothing when the
      index is out of range). */
  function Active(s: WinDeviceSet): (r: Option<WinDevice>)
    ensures r.Some? <==> s.activeId.Some? && s.activeId.value < |s.devs|
    ensures r.Some? ==> r.value == s.devs[s.activeId.value]
  {
    if s.activeId.Some? && s.activeId.value < |s.devs| then Some(s.devs[s.activeId.value]) else None
  }

  /** `get_and_update_active`: keeps the active device if it already has `handle`,
      otherwise looks the handle up; an unknown handle leaves no active device. */
  function GetAndUpdateActive(s: WinDeviceSet, handle: isize): (r: WinDeviceSet)
    requires Valid(s)
    ensures Valid(r) && r.devs == s.devs && r.indexs == s.indexs
    ensures Active(r).Some? <==> exists i :: 0 <= i < |s.devs| && s.devs[i].handle == handle
    ensures Active(r).Some? ==> Active(r).value.handle == handle
    ensures Active(s).Some? && Active(s).value.handle == handle ==> r == s
  {
    if s.activeId.Some? && s.devs[s.activeId.value].handle == handle then s
    else s.(activeId := if handle in s.indexs then Some(s.indexs[handle]) else None)
  }

  /** `rebuild`: replaces the devices, re-indexes them and clears the active device. */
  function Rebuild(s: WinDeviceSet, newDevs: seq<WinDevice>): (r: WinDeviceSet)
    ensures Valid(r) && r.devs == newDevs && r.activeId.None?
    ensures r.indexs == IndexMap(newDevs)
  {
    WinDeviceSet(newDevs, IndexMap(newDevs), None)
  }

  /** After a rebuild every handle finds the last device carrying it, and only handles
      of the new devices are found. */
  lemma RebuildThenLookup(s: WinDeviceSet, newDevs: seq<WinDevice>, handle: isize)
    ensures var a := Active(GetAndUpdateActive(Rebuild(s, newDevs), handle));
            && (a.Some? <==> exists i :: 0 <= i < |newDevs| && newDevs[i].handle == handle)
            && (a.Some? ==> a.value == newDevs[IndexMap(newDevs)[handle]]
                            && forall j :: IndexMap(newDevs)[handle] < j < |newDevs| ==> newDevs[j].handle != handle)
  {
  }

  /** The controller of device `i` replaced; handles, and so validity, stay. */
  function SetCtrl(s: WinDeviceSet, i: nat, c: DeviceController): (r: WinDeviceSet)
    requires Valid(s) && i < |s.devs|
    ensures Valid(r) && |r.devs| == |s.devs| && r.indexs == s.indexs && r.activeId == s.activeId
    ensures r.devs[i].ctrl == c
    ensures forall j :: 0 <= j < |s.devs| ==> r.devs[j].handle == s.devs[j].handle && r.devs[j].typ == s.devs[j].typ
    ensures forall j :: 0 <= j < |s.devs| && j != i ==> r.devs[j] == s.devs[j]
  {
    s.(devs := s.devs[i := s.devs[i].(ctrl := c)])
  }

  // ---------------------------------------------------------------------------
  // Scaling between physical and logical pixels

  /** A `RECT` of the Win32 API. */
  datatype Rect = Rect(left: i32, top: i32, right: i32, bottom: i32)

  /** `MonitorInfo`: a monitor's rectangle in physical pixels and its scale in percent. */
  datatype MonitorInfo = MonitorInfo(rect: Rect, scale: u32)

  /** `scale as i32` keeps its value and no `x * scale` overflows `i32`; the host never
      reports a zero scale. */
  predicate InfoInRange(mi: MonitorInfo) {
    && 0 < mi.scale < 0x8000_0000
    && InI32(mi.rect.left * mi.scale) && InI32(mi.rect.top * mi.scale)
    && InI32(mi.rect.right * mi.scale) && InI32(mi.rect.bottom * mi.scale)
  }

  /** `x * scale / 100` truncated toward zero, as `monitor_area_from` scales. */
  function ToLogical(x: i32, scale: u32): (r: i32)
    requires scale < 0x8000_0000 && InI32(x * scale)
    ensures TruncQuotient(r, x * scale, 100)
    ensures x >= 0 ==> r == x * scale / 100
    ensures if x * scale >= 0 then 0 <= r * 100 <= x * scale else x * scale <= r * 100 <= 0
  {
    TruncDiv(x * scale, 100)
  }

  /** `monitor_area_from`: each corner coordinate scaled, the scale kept. */
  function MonitorAreaFrom(mi: MonitorInfo): (r: MonitorArea)
    requires InfoInRange(mi)
    ensures r.scale == mi.scale
    ensures r.lefttop == MousePos(ToLogical(mi.rect.left, mi.scale), ToLogical(mi.rect.top, mi.scale))
    ensures r.rigtbtm == MousePos(ToLogical(mi.rect.right, mi.scale), ToLogical(mi.rect.bottom, mi.scale))
    ensures AreaInRange(r)
  {
    MonitorArea(MousePos(ToLogical(mi.rect.left, mi.scale), ToLogical(mi.rect.top, mi.scale)),
                MousePos(ToLogical(mi.rect.right, mi.scale), ToLogical(mi.rect.bottom, mi.scale)),
                mi.scale)
  }

  /** At 100% the logical rectangle is the physical one. */
  lemma MonitorAreaFromUnscaled(mi: MonitorInfo)
    requires InfoInRange(mi) && mi.scale == 100
    ensures MonitorAreaFrom(mi) ==
              MonitorArea(MousePos(mi.rect.left, mi.rect.top), MousePos(mi.rect.right, mi.rect.bottom), 100)
  {
  }

  /** Scaling keeps the order of coordinates, so a proper rectangle stays proper. */
  lemma MonitorAreaFromKeepsOrder(mi: MonitorInfo)
    requires InfoInRange(mi)
    requires mi.rect.left <= mi.rect.right && mi.rect.top <= mi.rect.bottom
    ensures WellFormed(MonitorAreaFrom(mi))
  {
    ScaleMonotone(mi.rect.left, mi.rect.right, mi.scale);
    ScaleMonotone(mi.rect.top, mi.rect.bottom, mi.scale);
  }

  lemma ScaleMonotone(a: i32, b: i32, s: u32)
    requires a <= b && s < 0x8000_0000 && InI32(a * s) && InI32(b * s)
    ensures ToLogical(a, s) <= ToLogical(b, s)
  {
    assert a * s <= b * s by {
      assert (b - a) * s >= 0;
    }
    TruncDivMonotone(a * s, b * s);
  }

  lemma TruncDivMonotone(a: int, b: int)
    requires a <= b
    ensures TruncDiv(a, 100) <= TruncDiv(b, 100)
  {
  }

  /** The positions `phy_pos_from` can scale back: a non-zero scale that `as i32` keeps,
      and coordinates whose `* 100` fits in `i32`. */
  predicate PhyDefined(p: MousePos, scale: u32) {
    0 < scale < 0x8000_0000 && InI32(p.x * 100) && InI32(p.y * 100)
  }

  /** `p * 100 / scale` truncated toward zero, as `phy_pos_from` scales each axis. */
  function ToPhysical(v: i32, scale: u32): (r: i32)
    requires 0 < scale < 0x8000_0000 && InI32(v * 100)
    ensures TruncQuotient(r, v * 100, scale)
    ensures v >= 0 ==> r == v * 100 / scale
    ensures (v >= 0 ==> 0 <= r <= v * 100) && (v < 0 ==> v * 100 <= r <= 0)
  {
    TruncDivShrinks(v * 100, scale);
    TruncDiv(v * 100, scale)
  }

  lemma TruncDivShrinks(a: int, b: int)
    requires b >= 1
    ensures a >= 0 ==> 0 <= TruncDiv(a, b) <= a
    ensures a < 0 ==> a <= TruncDiv(a, b) <= 0
  {
    if a >= 0 {
      DivShrinks(a, b);
      assert TruncDiv(a, b) == a / b;
    } else {
      DivShrinks(-a, b);
      assert TruncDiv(a, b) == -((-a) / b);
    }
  }

  lemma DivShrinks(n: nat, b: int)
    requires b >= 1
    ensures 0 <= n / b <= n
  {
    var q := n / b;
    assert n == q * b + n % b;
    MulBounds(q, b);
  }

  lemma MulBounds(q: int, b: int)
    requires b >= 1
    ensures q >= 0 ==> q * b >= q
    ensures q < 0 ==> q * b <= -b
  {
  }

  /** `phy_pos_from`: each axis of a logical position back in physical pixels, the
      quotient by the scale truncated toward zero. */
  function PhyPosFrom(p: MousePos, scale: u32): (r: (i32, i32))
    requires PhyDefined(p, scale)
    ensures TruncQuotient(r.0, p.x * 100, scale) && TruncQuotient(r.1, p.y * 100, scale)
  {
    (ToPhysical(p.x, scale), ToPhysical(p.y, scale))
  }

  /** At 100% a logical position is the physical one. */
  lemma PhyPosFromUnscaled(p: MousePos)
    requires InI32(p.x * 100) && InI32(p.y * 100)
    ensures PhyPosFrom(p, 100) == (p.x, p.y)
  {
  }

  /** Going to logical pixels and back never overshoots a non-negative coordinate:
      both divisions truncate. */
  lemma PhysicalOfLogicalBelow(x: i32, s: u32)
    requires x >= 0 && 0 < s < 0x8000_0000 && InI32(x * s)
    requires InI32(ToLogical(x, s) * 100)
    ensures ToPhysical(ToLogical(x, s), s) <= x
  {
    MulNonNegative(x, s);
    var a := ToLogical(x, s);
    assert 0 <= a * 100 <= x * s;
    var q := ToPhysical(a, s);
    assert q == a * 100 / s;
    DivTimesBelow(a * 100, s);
    CancelPositive(q, x, s);
  }

  /** The mirror for a negative coordinate: the round trip never lands below it. */
  lemma PhysicalOfLogicalAbove(x: i32, s: u32)
    requires x < 0 && 0 < s < 0x8000_0000 && InI32(x * s)
    requires InI32(ToLogical(x, s) * 100)
    ensures x <= ToPhysical(ToLogical(x, s), s) <= 0
  {
    MulPositive(-(x as int), s);
    assert -(x as int) * s == -(x * s);
    var a := ToLogical(x, s);
    assert x * s <= a * 100 <= 0;
    var q := ToPhysical(a, s);
    assert a * 100 <= q * s;
    CancelPositive(x, q, s);
  }

  /** At a scale of 100% or more the round trip through logical pixels moves a
      coordinate by at most one pixel, toward zero. */
  lemma PhysicalOfLogicalWithinOne(x: i32, s: u32)
    requires 100 <= s < 0x8000_0000 && InI32(x * s)
    ensures InI32(ToLogical(x, s) * 100)
    ensures x >= 0 ==> x - 1 <= ToPhysical(ToLogical(x, s), s) <= x
    ensures x < 0 ==> x <= ToPhysical(ToLogical(x, s), s) <= x + 1
  {
    var a := ToLogical(x, s);
    assert a * 100 - 100 < x * s < a * 100 + 100;
    var q := ToPhysical(a, s);
    assert q * s - s < a * 100 < q * s + s;
    if x >= 0 {
      PhysicalOfLogicalBelow(x, s);
      assert x * s < (q + 2) * s by {
        assert (q + 2) * s == q * s + 2 * s;
      }
      MulCancelLess(x, q + 2, s);
    } else {
      PhysicalOfLogicalAbove(x, s);
      assert q * s < (x + 2) * s by {
        assert (x + 2) * s == x * s + 2 * s;
      }
      MulCancelLess(q, x + 2, s);
    }
  }

  /** Scaling back to physical pixels keeps the order of coordinates. */
  lemma ToPhysicalMonotone(a: i32, b: i32, s: u32)
    requires a <= b && 0 < s < 0x8000_0000 && InI32(a * 100) && InI32(b * 100)
    ensures ToPhysical(a, s) <= ToPhysical(b, s)
  {
    TruncDivMonotoneIn(a * 100, b * 100, s);
  }

  /** A position inside the logical area of a monitor scaled at 100% or more maps back
      into the monitor's physical rectangle, give or take one pixel of truncation. */
  lemma PhyPosFromNearRect(mi: MonitorInfo, p: MousePos)
    requires InfoInRange(mi) && mi.scale >= 100
    requires Contains(MonitorAreaFrom(mi), p)
    ensures PhyDefined(p, mi.scale)
    ensures var r := PhyPosFrom(p, mi.scale);
            && mi.rect.left - 1 <= r.0 <= mi.rect.right + 1
            && mi.rect.top - 1 <= r.1 <= mi.rect.bottom + 1
  {
    AxisNear(mi.rect.left, mi.rect.right, p.x, mi.scale);
    AxisNear(mi.rect.top, mi.rect.bottom, p.y, mi.scale);
  }

  /** One axis of `PhyPosFromNearRect`. */
  lemma AxisNear(lo: i32, hi: i32, v: i32, s: u32)
    requires 100 <= s < 0x8000_0000 && InI32(lo * s) && InI32(hi * s)
    requires ToLogical(lo, s) <= v <= ToLogical(hi, s)
    ensures InI32(v * 100)
    ensures lo - 1 <= ToPhysical(v, s) <= hi + 1
  {
    PhysicalOfLogicalWithinOne(lo, s);
    PhysicalOfLogicalWithinOne(hi, s);
    ToPhysicalMonotone(ToLogical(lo, s), v, s);
    ToPhysicalMonotone(v, ToLogical(hi, s), s);
  }

  lemma MulNonNegative(x: int, s: int)
    requires x >= 0 && s >= 0
    ensures x * s >= 0
  {
  }

  /** Euclidean division rounds down. */
  lemma DivTimesBelow(n: nat, d: int)
    requires d > 0
    ensures n / d * d <= n
  {
    assert n == n / d * d + n % d;
  }

  /** A positive factor can be cancelled from both sides of `<=`. */
  lemma CancelPositive(q: int, x: int, s: int)
    requires s > 0 && q * s <= x * s
    ensures q <= x
  {
    if q > x {
      assert q * s - x * s == (q - x) * s;
      MulPositive(q - x, s);
    }
  }

  lemma MulPositive(a: int, b: int)
    requires a > 0 && b > 0
    ensures a * b > 0
  {
  }

  /** A monitor area `phy_pos_from` can scale every contained position of. */
  predicate AreaInRange(a: MonitorArea) {
    && 0 < a.scale < 0x8000_0000
    && InI32(a.lefttop.x * 100) && InI32(a.lefttop.y * 100)
    && InI32(a.rigtbtm.x * 100) && InI32(a.rigtbtm.y * 100)
  }

  /** Positions between the corners of an area in range scale back, and so does every
      result of clamping into it. */
  lemma InRangeAreaScales(a: MonitorArea, p: MousePos)
    requires AreaInRange(a)
    ensures Contains(a, p) ==> PhyDefined(p, a.scale)
    ensures PhyDefined(CapturePos(a, p), a.scale)
  {
  }

  /** The areas of a list of monitors, in order. */
  function MonitorAreas(ms: seq<MonitorInfo>): (r: seq<MonitorArea>)
    requires forall i :: 0 <= i < |ms| ==> InfoInRange(ms[i])
    ensures |r| == |ms|
    ensures forall i :: 0 <= i < |ms| ==> r[i] == MonitorAreaFrom(ms[i]) && AreaInRange(r[i])
    decreases |ms|
  {
    if |ms| == 0 then []
    else
      assert forall i :: 1 <= i < |ms| ==> ms[1..][i - 1] == ms[i];
      [MonitorAreaFrom(ms[0])] + MonitorAreas(ms[1..])
  }

  predicate MonitorsInRange(mons: Result<seq<MonitorInfo>, Error>) {
    mons.Ok? ==> forall i :: 0 <= i < |mons.value| ==> InfoInRange(mons.value[i])
  }

  // ---------------------------------------------------------------------------
  // The processor

  /** The state the event handlers work on. */
  datatype Processor = Processor(
    devices: WinDeviceSet,
    tickWiden: TickWiden,
    relocator: MouseRelocator,
    rlUpdateMon: SimpleRatelimit,
    rlUpdateDev: SimpleRatelimit)

  /** What keeps every later step defined: a valid registry, a widener base below the
      tick bound, and monitor areas, cached areas and any staged relocation that
      `phy_pos_from` can scale. */
  predicate Sane(p: Processor) {
    && Valid(p.devices)
    && p.tickWiden.accuTick < TICK_BOUND
    && (forall i :: 0 <= i < |p.relocator.monitors| ==> AreaInRange(p.relocator.monitors[i]))
    && (forall i :: 0 <= i < |p.devices.devs| && p.devices.devs[i].ctrl.restricArea.Some? ==>
          AreaInRange(p.devices.devs[i].ctrl.restricArea.value))
    && (p.relocator.relocatePos.Some? ==>
          PhyDefined(p.relocator.relocatePos.value.0, p.relocator.relocatePos.value.1))
  }

  /** `WinDeviceProcessor::new`, with the widener built from the host clock. The
      widener uses the period of the 32-bit tick (see `WinWrap.WidenFollowsHost`). */
  function NewProcessor(host: u64): (r: Processor)
    requires host < TICK_BOUND
    ensures Sane(r)
    ensures r.devices.devs == [] && r.relocator == NewRelocator()
    ensures r.rlUpdateMon == NewRatelimit(RATELIMIT_UPDATE_MONITOR_ONCE_MS)
    ensures r.rlUpdateDev == NewRatelimit(RATELIMIT_UPDATE_DEVICE_ONCE_MS)
  {
    Processor(NewDeviceSet(), NewTickWiden(host, SHORT_TICK_PERIOD), NewRelocator(),
              NewRatelimit(RATELIMIT_UPDATE_MONITOR_ONCE_MS), NewRatelimit(RATELIMIT_UPDATE_DEVICE_ONCE_MS))
  }

  /** The gate of both rescans: `must` skips the limiter; otherwise the limiter is asked,
      and moves its window on when it allows. */
  function Gate(rl: SimpleRatelimit, must: bool, now: u64): (r: (bool, SimpleRatelimit))
    requires now + rl.oncePer < 0x1_0000_0000_0000_0000
    ensures r.0 <==> must || Allowed(rl, now)
    ensures must || !r.0 ==> r.1 == rl
    ensures !must && r.0 ==> r.1 == Allow(rl, now).1
  {
    if must then (true, rl) else Allow(rl, now)
  }

  /** `try_update_devices`: the limiter may refuse; a failing device list is reported;
      otherwise the registry is rebuilt from the collected devices (a failure to
      re-register for raw input is only logged). */
  function TryUpdateDevices(p: Processor, must: bool, now: u64, list: Result<seq<RawDeviceEntry>, Error>)
    : (r: (Result<bool, Error>, Processor))
    requires now + p.rlUpdateDev.oncePer < 0x1_0000_0000_0000_0000
    ensures !must && !Allowed(p.rlUpdateDev, now) ==> r == (Ok(false), p)
    ensures (must || Allowed(p.rlUpdateDev, now)) && list.Err? ==>
              r == (Err(list.error), p.(rlUpdateDev := Gate(p.rlUpdateDev, must, now).1))
    ensures (must || Allowed(p.rlUpdateDev, now)) && list.Ok? ==>
              && r.0 == Ok(true)
              && r.1 == p.(rlUpdateDev := Gate(p.rlUpdateDev, must, now).1,
                           devices := Rebuild(p.devices, CollectDevices(list.value)))
    ensures Sane(p) ==> Sane(r.1)
  {
    var g := Gate(p.rlUpdateDev, must, now);
    if !g.0 then (Ok(false), p)
    else
      var p1 := p.(rlUpdateDev := g.1);
      match CollectAllRawDevices(list)
      case Err(e) => (Err(e), p1)
      case Ok(devs) => (Ok(true), p1.(devices := Rebuild(p1.devices, devs)))
  }

  /** `try_update_monitors`: the limiter may refuse; a failing monitor query is
      reported; otherwise the relocator gets the scaled areas and nothing else. */
  function TryUpdateMonitors(p: Processor, must: bool, now: u64, mons: Result<seq<MonitorInfo>, Error>)
    : (r: (Result<bool, Error>, Processor))
    requires now + p.rlUpdateMon.oncePer < 0x1_0000_0000_0000_0000
    requires MonitorsInRange(mons)
    ensures !must && !Allowed(p.rlUpdateMon, now) ==> r == (Ok(false), p)
    ensures (must || Allowed(p.rlUpdateMon, now)) && mons.Err? ==>
              r == (Err(mons.error), p.(rlUpdateMon := Gate(p.rlUpdateMon, must, now).1))
    ensures (must || Allowed(p.rlUpdateMon, now)) && mons.Ok? ==>
              && r.0 == Ok(true)
              && r.1 == p.(rlUpdateMon := Gate(p.rlUpdateMon, must, now).1,
                           relocator := UpdateMonitors(p.relocator, MonitorAreas(mons.value)))
    ensures r.1.devices == p.devices && r.1.tickWiden == p.tickWiden
    ensures r.1.rlUpdateMon.oncePer == p.rlUpdateMon.oncePer
    ensures Sane(p) ==> Sane(r.1)
  {
    var g := Gate(p.rlUpdateMon, must, now);
    if !g.0 then (Ok(false), p)
    else
      var p1 := p.(rlUpdateMon := g.1);
      match mons
      case Err(e) => (Err(e), p1)
      case Ok(ms) => (Ok(true), p1.(relocator := UpdateMonitors(p1.relocator, MonitorAreas(ms))))
  }

  /** `resolve_relocator`: a stale topology is refreshed through the rate-limited rescan,
      and the flag cleared only when that rescan ran; then the staged relocation, if
      any, is taken and scaled back to the physical position handed to the cursor. */
  function ResolveRelocator(p: Processor, now: u64, mons: Result<seq<MonitorInfo>, Error>)
    : (r: (Option<(i32, i32)>, Processor))
    requires now + p.rlUpdateMon.oncePer < 0x1_0000_0000_0000_0000
    requires MonitorsInRange(mons)
    requires Sane(p)
    ensures Sane(r.1)
    ensures r.1.relocator.relocatePos.None?
    ensures p.relocator.relocatePos.None? ==> r.0.None?
    ensures p.relocator.relocatePos.Some? ==>
              var (pos, scale) := p.relocator.relocatePos.value;
              r.0 == Some(PhyPosFrom(pos, scale))
    ensures var ran := p.relocator.toUpdateMonitors && Allowed(p.rlUpdateMon, now) && mons.Ok?;
            && (r.1.relocator.toUpdateMonitors <==> p.relocator.toUpdateMonitors && !ran)
            && r.1.relocator.monitors == (if ran then MonitorAreas(mons.value) else p.relocator.monitors)
    ensures r.1.relocator.curPos == p.relocator.curPos && r.1.relocator.curMouse == p.relocator.curMouse
    ensures r.1.devices == p.devices && r.1.tickWiden == p.tickWiden && r.1.rlUpdateDev == p.rlUpdateDev
  {
    var p1 :=
      if NeedUpdateMonitors(p.relocator) then
        var u := TryUpdateMonitors(p, false, now, mons);
        if u.0 == Ok(true) then u.1.(relocator := DoneUpdateMonitors(u.1.relocator)) else u.1
      else p;
    var pop := PopRelocatePos(p1.relocator);
    var target := if pop.0.Some? then Some(PhyPosFrom(pop.0.value.0, pop.0.value.1)) else None;
    (target, p1.(relocator := pop.1))
  }

  /** The low-level mouse hook: the raw position goes to the relocator together with
      the active device's controller. */
  function OnMouseLowLevel(p: Processor, pos: MousePos): (r: Processor)
    requires Sane(p)
    ensures Sane(r)
    ensures r.devices.activeId == p.devices.activeId && |r.devices.devs| == |p.devices.devs|
    ensures Active(p.devices).None? ==> r == p.(relocator := p.relocator.(curPos := pos))
    ensures Active(p.devices).Some? ==>
              var u := OnPosUpdate(p.relocator, Some(Active(p.devices).value.ctrl), pos);
              r == p.(relocator := u.rel, devices := SetCtrl(p.devices, p.devices.activeId.value, u.ctrl.value))
  {
    match Active(p.devices)
    case None =>
      p.(relocator := OnPosUpdate(p.relocator, None, pos).rel)
    case Some(dev) =>
      var i := p.devices.activeId.value;
      var u := OnPosUpdate(p.relocator, Some(dev.ctrl), pos);
      HookKeepsSane(p, i, pos);
      p.(relocator := u.rel, devices := SetCtrl(p.devices, i, u.ctrl.value))
  }

  lemma HookKeepsSane(p: Processor, i: nat, pos: MousePos)
    requires Sane(p) && i < |p.devices.devs|
    ensures var u := OnPosUpdate(p.relocator, Some(p.devices.devs[i].ctrl), pos);
            Sane(p.(relocator := u.rel, devices := SetCtrl(p.devices, i, u.ctrl.value)))
  {
    var c := p.devices.devs[i].ctrl;
    var u := OnPosUpdate(p.relocator, Some(c), pos);
    if c.setting.restrictInMonitor {
      if c.restricArea.Some? {
        InRangeAreaScales(c.restricArea.value, pos);
      } else {
        LocateInRange(p.relocator.monitors, pos);
      }
    }
  }

  /** An area `Locate` finds in a list of areas in range is in range. */
  lemma LocateInRange(list: seq<MonitorArea>, p: MousePos)
    requires forall i :: 0 <= i < |list| ==> AreaInRange(list[i])
    ensures Locate(list, p).Some? ==> AreaInRange(Locate(list, p).value) && Contains(Locate(list, p).value, p)
  {
    if Locate(list, p).Some? {
      var i :| 0 <= i < |list| && list[i] == Locate(list, p).value && Contains(list[i], p);
    }
  }

  /** `on_raw_input`: a raw-input message whose data could be read is widened to a 64-bit
      tick and attributed to its device; an unknown device ends the handling, otherwise
      the relocator sees the device switch and is then resolved. The result is the
      physical position the cursor is moved to, if any. */
  function OnRawInput(p: Processor, dataOk: bool, hDevice: isize, tick: u32, host: u64, now: u64,
                      mons: Result<seq<MonitorInfo>, Error>): (r: (Option<(i32, i32)>, Processor))
    requires Sane(p) && host < TICK_BOUND
    requires now + p.rlUpdateMon.oncePer < 0x1_0000_0000_0000_0000
    requires MonitorsInRange(mons)
    ensures Sane(r.1)
    ensures !dataOk ==> r == (None, p)
    ensures dataOk ==> r.1.tickWiden == Widen(p.tickWiden, tick, host, SHORT_TICK_PERIOD).1
    ensures dataOk && (forall i :: 0 <= i < |p.devices.devs| ==> p.devices.devs[i].handle != hDevice) ==>
              && r.0.None? && r.1.relocator == p.relocator
              && r.1.devices == p.devices.(activeId := None)
    ensures dataOk && (exists i :: 0 <= i < |p.devices.devs| && p.devices.devs[i].handle == hDevice) ==>
              && r.1.relocator.relocatePos.None?
              && Active(r.1.devices).Some? && Active(r.1.devices).value.handle == hDevice
              && r.1.relocator.curMouse == Active(r.1.devices).value.ctrl.id
  {
    if !dataOk then (None, p)
    else
      var w := Widen(p.tickWiden, tick, host, SHORT_TICK_PERIOD);
      var devices := GetAndUpdateActive(p.devices, hDevice);
      var p1 := p.(tickWiden := w.1, devices := devices);
      match devices.activeId
      case None => (None, p1)
      case Some(i) =>
        var c := devices.devs[i].ctrl;
        var mu := OnMouseUpdate(p1.relocator, c, w.0);
        var p2 := p1.(relocator := mu.rel, devices := SetCtrl(devices, i, mu.ctrl));
        RawInputKeepsSane(p1, i, w.0);
        ResolveRelocator(p2, now, mons)
  }

  lemma RawInputKeepsSane(p: Processor, i: nat, wtick: u64)
    requires Sane(p) && i < |p.devices.devs|
    ensures var mu := OnMouseUpdate(p.relocator, p.devices.devs[i].ctrl, wtick);
            Sane(p.(relocator := mu.rel, devices := SetCtrl(p.devices, i, mu.ctrl)))
  {
    var c := p.devices.devs[i].ctrl;
    if GetLastPos(c).Some? {
      LocateInRange(p.relocator.monitors, GetLastPos(c).value);
      var area := Locate(p.relocator.monitors, GetLastPos(c).value);
      if area.Some? {
        InRangeAreaScales(area.value, GetLastPos(c).value);
      }
    }
  }

  /** With the limiter refusing, neither rescan changes anything. */
  lemma RefusedRescansChangeNothing(p: Processor, now: u64, list: Result<seq<RawDeviceEntry>, Error>,
                                    mons: Result<seq<MonitorInfo>, Error>)
    requires now + p.rlUpdateDev.oncePer < 0x1_0000_0000_0000_0000
    requires now + p.rlUpdateMon.oncePer < 0x1_0000_0000_0000_0000
    requires MonitorsInRange(mons)
    requires now < p.rlUpdateDev.next && now < p.rlUpdateMon.next
    ensures TryUpdateDevices(p, false, now, list) == (Ok(false), p)
    ensures TryUpdateMonitors(p, false, now, mons) == (Ok(false), p)
  {
  }

  /** A relocation staged by a device switch is drained by the same message: it reaches
      the cursor once and is gone afterwards. */
  lemma SecondResolveMovesNothing(p: Processor, now: u64, now': u64, mons: Result<seq<MonitorInfo>, Error>)
    requires Sane(p) && MonitorsInRange(mons)
    requires now + p.rlUpdateMon.oncePer < 0x1_0000_0000_0000_0000
    requires now' + p.rlUpdateMon.oncePer < 0x1_0000_0000_0000_0000
    ensures var r := ResolveRelocator(p, now, mons);
            now' + r.1.rlUpdateMon.oncePer < 0x1_0000_0000_0000_0000 &&
            ResolveRelocator(r.1, now', mons).0.None?
  {
    var r := ResolveRelocator(p, now, mons);
    assert r.1.rlUpdateMon.oncePer == p.rlUpdateMon.oncePer;
  }
}
