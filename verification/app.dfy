/** The UI thread's bookkeeping: waiting for a restart request, replacing the managed
    device list with a scan, and applying a status report to it. */
module App {
  import opened Wrappers
  import opened Message

  /** A scanned device: its id and whatever else the scan reports, which the UI only
      carries along. */
  datatype GenericDevice<D> = GenericDevice(id: string, data: D)

  /** `DeviceUIState`: one row of the managed device list. */
  datatype DeviceUIState<D> = DeviceUIState(locked: bool, switch: bool, generic: GenericDevice<D>, status: DeviceStatus)

  /** The messages the UI thread receives. `Other` stands for every message that
      `wait_for_restart` discards. */
  datatype UiMessage = UiExit | RestartUI | Other

  /** The row `merge_scanned_devices` makes for a scanned device. */
  function FreshRow<D(==)>(v: GenericDevice<D>): DeviceUIState<D> {
    DeviceUIState(false, false, v, Disconnected)
  }

  /** `App::merge_scanned_devices`: pop the scanned devices one by one, so the new list is
      the scan reversed, every row unlocked, switched off and Disconnected. */
  method MergeScannedDevices<D(==)>(devs: seq<GenericDevice<D>>) returns (managed: seq<DeviceUIState<D>>)
    ensures |managed| == |devs|
    ensures forall i :: 0 <= i < |managed| ==>
              managed[i].generic == devs[|devs| - 1 - i]
              && !managed[i].locked && !managed[i].switch && managed[i].status == Disconnected
  {
    var rest := devs;
    managed := [];
    while |rest| > 0
      invariant |managed| + |rest| == |devs|
      invariant rest == devs[..|rest|]
      invariant forall i :: 0 <= i < |managed| ==> managed[i] == FreshRow(devs[|devs| - 1 - i])
    {
      var v := rest[|rest| - 1];
      rest := rest[..|rest| - 1];
      managed := managed + [FreshRow(v)];
    }
  }

  /** The status of the first report for `id`, if any. */
  function FirstReport(reports: seq<(string, DeviceStatus)>, id: string): Option<DeviceStatus>
    decreases |reports|
  {
    if |reports| == 0 then None
    else if reports[0].0 == id then Some(reports[0].1)
    else FirstReport(reports[1..], id)
  }

  /** `FirstReport` finds the earliest report of `id`, and nothing when there is none. */
  lemma {:induction false} FirstReportIsEarliest(reports: seq<(string, DeviceStatus)>, id: string)
    ensures FirstReport(reports, id).None? <==> forall k :: 0 <= k < |reports| ==> reports[k].0 != id
    ensures forall k :: 0 <= k < |reports| && reports[k].0 == id
                        && (forall j :: 0 <= j < k ==> reports[j].0 != id) ==>
              FirstReport(reports, id) == Some(reports[k].1)
    decreases |reports|
  {
    if |reports| > 0 {
      FirstReportIsEarliest(reports[1..], id);
      if reports[0].0 != id {
        forall k | 0 <= k < |reports| && reports[k].0 == id && (forall j :: 0 <= j < k ==> reports[j].0 != id)
          ensures FirstReport(reports, id) == Some(reports[k].1)
        {
          assert k > 0;
          assert reports[1..][k - 1] == reports[k];
          assert forall j :: 0 <= j < k - 1 ==> reports[1..][j] == reports[j + 1];
        }
        assert (forall k :: 0 <= k < |reports[1..]| ==> reports[1..][k].0 != id)
               ==> (forall k :: 0 <= k < |reports| ==> reports[k].0 != id) by {
          forall k | 0 <= k < |reports| && k > 0 ensures reports[k] == reports[1..][k - 1] { }
        }
      }
    }
  }

  /** Row `i` is the first row carrying its id. */
  predicate FirstWithId<D(==)>(managed: seq<DeviceUIState<D>>, i: nat)
    requires i < |managed|
  {
    forall j :: 0 <= j < i ==> managed[j].generic.id != managed[i].generic.id
  }

  /** The status a row ends with after a report: the earliest report of its id when it
      is the first row with that id, Disconnected otherwise. */
  function StatusAfter<D(==)>(managed: seq<DeviceUIState<D>>, reports: seq<(string, DeviceStatus)>, i: nat): DeviceStatus
    requires i < |managed|
  {
    var found := FirstReport(reports, managed[i].generic.id);
    if FirstWithId(managed, i) && found.Some? then found.value else Disconnected
  }

  /** The `for d in &mut managed_devices` search: the first row with `id`, or `|managed|`. */
  method FindFirst<D(==)>(managed: seq<DeviceUIState<D>>, id: string) returns (j: nat)
    ensures j <= |managed|
    ensures forall k :: 0 <= k < j ==> managed[k].generic.id != id
    ensures j < |managed| ==> managed[j].generic.id == id
  {
    j := 0;
    while j < |managed| && managed[j].generic.id != id
      invariant j <= |managed|
      invariant forall k :: 0 <= k < j ==> managed[k].generic.id != id
    {
      j := j + 1;
    }
  }

  /** The same rows apart from their status. */
  predicate SameRows<D(==)>(a: seq<DeviceUIState<D>>, b: seq<DeviceUIState<D>>) {
    |a| == |b| && forall i :: 0 <= i < |a| ==>
      a[i].generic == b[i].generic && a[i].locked == b[i].locked && a[i].switch == b[i].switch
  }

  /** `App::update_devices_status`: mark every row Disconnected, then pop the reports from
      the back and give each one's status to the first row with its id. */
  method UpdateDevicesStatus<D(==)>(managed: seq<DeviceUIState<D>>, reports: seq<(string, DeviceStatus)>)
    returns (r: seq<DeviceUIState<D>>)
    ensures SameRows(r, managed)
    ensures forall i :: 0 <= i < |r| ==> r[i].status == StatusAfter(managed, reports, i)
  {
    r := seq(|managed|, i requires 0 <= i < |managed| => managed[i].(status := Disconnected));
    var k := |reports|;
    while k > 0
      invariant 0 <= k <= |reports|
      invariant SameRows(r, managed)
      invariant forall i :: 0 <= i < |r| ==> r[i].status == StatusAfter(managed, reports[k..], i)
    {
      k := k - 1;
      var (id, status) := reports[k];
      var j := FindFirst(r, id);
      ReportStep(managed, reports[k..], r, j);
      if j < |r| {
        r := r[j := r[j].(status := status)];
      }
    }
  }

  /** One report popped from the back: the first row with its id takes its status, and
      every other row keeps what the later reports gave it. */
  lemma ReportStep<D>(managed: seq<DeviceUIState<D>>, reports: seq<(string, DeviceStatus)>,
                      before: seq<DeviceUIState<D>>, j: nat)
    requires |reports| > 0 && j <= |managed| == |before|
    requires forall k :: 0 <= k < j ==> managed[k].generic.id != reports[0].0
    requires j < |managed| ==> managed[j].generic.id == reports[0].0
    requires forall i :: 0 <= i < |managed| ==> before[i].status == StatusAfter(managed, reports[1..], i)
    ensures forall i :: 0 <= i < |managed| && i != j ==> StatusAfter(managed, reports, i) == before[i].status
    ensures j < |managed| ==> StatusAfter(managed, reports, j) == reports[0].1
  {
    forall i | 0 <= i < |managed| && i != j
      ensures StatusAfter(managed, reports, i) == before[i].status
    {
      if managed[i].generic.id == reports[0].0 {
        assert i > j;
        assert managed[j].generic.id == managed[i].generic.id;
      }
    }
  }

  /** The status contract read as the source states it: an unreported row is
      Disconnected, and when an id is reported twice the earlier report wins. */
  lemma StatusAfterReadings<D>(managed: seq<DeviceUIState<D>>, reports: seq<(string, DeviceStatus)>, i: nat, k: nat)
    requires i < |managed| && k < |reports|
    ensures (forall m :: 0 <= m < |reports| ==> reports[m].0 != managed[i].generic.id) ==>
              StatusAfter(managed, reports, i) == Disconnected
    ensures FirstWithId(managed, i) && reports[k].0 == managed[i].generic.id
            && (forall m :: 0 <= m < k ==> reports[m].0 != managed[i].generic.id) ==>
              StatusAfter(managed, reports, i) == reports[k].1
  {
    FirstReportIsEarliest(reports, managed[i].generic.id);
  }

  /** `App::wait_for_restart`. `queued` is what the channel holds when the call starts,
      `later` what arrives while the blocking receive waits, and `closed` whether the
      sender is dropped after all of it. The result is `Some(true)` to exit, `Some(false)`
      to restart, and `None` while the UI thread is still blocked. */
  method WaitForRestart(shouldExit: bool, queued: seq<UiMessage>, later: seq<UiMessage>, closed: bool)
    returns (r: Option<bool>)
    ensures shouldExit ==> r == Some(true)
    ensures !shouldExit && UiExit in queued ==> r == Some(true)
    ensures !shouldExit && UiExit !in queued ==>
              r == match FirstControl(later)
                   case Some(UiExit) => Some(true)
                   case Some(_) => Some(false)
                   case None => if closed then Some(true) else None
  {
    if shouldExit {
      return Some(true);
    }
    // clear what is already queued
    var i := 0;
    while i < |queued|
      invariant 0 <= i <= |queued|
      invariant UiExit !in queued[..i]
    {
      if queued[i] == UiExit {
        return Some(true);
      }
      assert queued[..i + 1] == queued[..i] + [queued[i]];
      i := i + 1;
    }
    assert queued[..i] == queued;
    if |later| == 0 && closed {
      return Some(true);
    }
    // wait for a restart request
    var j := 0;
    while j < |later|
      invariant 0 <= j <= |later|
      invariant FirstControl(later) == FirstControl(later[j..])
    {
      assert later[j..][1..] == later[j + 1..];
      if later[j] == UiExit {
        return Some(true);
      } else if later[j] == RestartUI {
        return Some(false);
      }
      j := j + 1;
    }
    r := if closed then Some(true) else None;
  }

  /** The first Exit or RestartUI in a message sequence. */
  function FirstControl(s: seq<UiMessage>): Option<UiMessage>
    decreases |s|
  {
    if |s| == 0 then None
    else if s[0] != Other then Some(s[0])
    else FirstControl(s[1..])
  }

  /** `FirstControl` skips exactly the discarded messages. */
  lemma {:induction false} FirstControlSkipsOthers(s: seq<UiMessage>)
    ensures FirstControl(s).None? <==> forall k :: 0 <= k < |s| ==> s[k] == Other
    ensures forall k :: 0 <= k < |s| && s[k] != Other && (forall j :: 0 <= j < k ==> s[j] == Other) ==>
              FirstControl(s) == Some(s[k])
    decreases |s|
  {
    if |s| > 0 {
      FirstControlSkipsOthers(s[1..]);
      if s[0] == Other {
        forall k | 0 <= k < |s| && s[k] != Other && (forall j :: 0 <= j < k ==> s[j] == Other)
          ensures FirstControl(s) == Some(s[k])
        {
          assert s[1..][k - 1] == s[k];
          assert forall j :: 0 <= j < k - 1 ==> s[1..][j] == s[j + 1];
        }
        assert (forall k :: 0 <= k < |s[1..]| ==> s[1..][k] == Other)
               ==> (forall k :: 0 <= k < |s| ==> s[k] == Other) by {
          forall k | 0 <= k < |s| && k > 0 ensures s[k] == s[1..][k - 1] { }
        }
      }
    }
  }
}
