/** The messages between the control thread and the UI thread: a close signal held in a
    one-slot channel, and an unbounded FIFO channel of pending UI actions. Channels are
    modelled as their contents; the blocking and the threads themselves are not. */
module Message {
  import opened Wrappers

  /** How a managed device was last seen. */
  datatype DeviceStatus = Active | Idle | Disconnected

  /** The close signal: a channel of capacity one carrying `()`. `pending` says whether
      the slot is full; `senderAlive` whether the sending half still exists. */
  datatype Signal = Signal(pending: bool, senderAlive: bool)

  /** `signal()`: an empty slot with a live sender, so a check finds nothing yet. */
  function NewSignal(): (r: Signal)
    ensures !r.pending && r.senderAlive
    ensures Check(r).0.None?
  {
    Signal(false, true)
  }

  /** `SignalSender::send`: `try_send` fills the slot, and a full slot drops the new
      signal without error. The next check sees it. */
  function Send(s: Signal): (r: Signal)
    ensures Check(r).0 == Some(true)
    ensures r.senderAlive == s.senderAlive
  {
    s.(pending := true)
  }

  /** The sending half goes away (the master reactor is dropped). */
  function DropSender(s: Signal): Signal {
    s.(senderAlive := false)
  }

  /** `SignalReceiver::check`: `try_recv` on the slot. A pending signal is received even
      after the sender is gone; an empty slot reports disconnection only then. */
  function Check(s: Signal): (r: (Option<bool>, Signal))
    ensures r.0 == Some(true) <==> s.pending
    ensures r.0 == None <==> !s.pending && s.senderAlive
    ensures r.0 == Some(false) <==> !s.pending && !s.senderAlive
    ensures !r.1.pending && r.1.senderAlive == s.senderAlive
  {
    if s.pending then (Some(true), s.(pending := false))
    else if s.senderAlive then (None, s)
    else (Some(false), s)
  }

  /** `n` sends in a row. */
  function SendTimes(s: Signal, n: nat): Signal
    decreases n
  {
    if n == 0 then s else Send(SendTimes(s, n - 1))
  }

  /** Repeated sends before a check collapse into the single slot. */
  lemma {:induction false} SendsCollapse(s: Signal, n: nat)
    requires n > 0
    ensures SendTimes(s, n) == Send(s)
    decreases n
  {
    if n > 1 {
      SendsCollapse(s, n - 1);
    }
  }

  /** However many sends came first, one check consumes the signal and the next check
      finds the slot empty. */
  lemma SendsThenCheckTwice(s: Signal, n: nat)
    requires n > 0 && s.senderAlive
    ensures Check(SendTimes(s, n)).0 == Some(true)
    ensures Check(Check(SendTimes(s, n)).1).0 == None
  {
    SendsCollapse(s, n);
  }

  /** `UIPendingAction`. */
  datatype Action = Restart | Exit

  /** The channels the master reactor shares with the UI reactor: the pending-action
      queue, whether its sender still exists, and the close signal. */
  datatype Channels = Channels(pending: seq<Action>, pendingOpen: bool, close: Signal)

  /** `setup_reactors`: both channels empty, both senders alive, so the UI side sees
      neither a close request nor an exit. */
  function SetupReactors(): (r: Channels)
    ensures !CheckClose(r).0 && r.close.senderAlive && r.pendingOpen
    ensures RecvPendingMsg(r, false) == (Restart, r)
  {
    Channels([], true, NewSignal())
  }

  /** `MasterReactor::exit_ui`: queue Exit, then raise the close signal. Both
      receivers see it: `check_close` reports it and either receive returns Exit. */
  function ExitUi(c: Channels): (r: Channels)
    ensures Exit in r.pending && CheckClose(r).0
    ensures RecvPendingMsg(r, false).0 == Exit
    ensures RecvPendingMsg(r, true).0 == Exit
  {
    var r := c.(pending := c.pending + [Exit], close := Send(c.close));
    RecvReturnsExitIffQueued(r);
    BlockingRecvReturnsExit(r);
    r
  }

  /** `MasterReactor::restart_ui`: queue Restart only. It never overrides a queued Exit,
      and without one the drain answers Restart as before; `check_close` is unchanged. */
  function RestartUi(c: Channels): (r: Channels)
    ensures RecvPendingMsg(r, false).0 == RecvPendingMsg(c, false).0
    ensures CheckClose(r).0 == CheckClose(c).0
  {
    var r := c.(pending := c.pending + [Restart]);
    RecvReturnsExitIffQueued(c);
    RecvReturnsExitIffQueued(r);
    r
  }

  /** `MasterReactor::close_ui`: queue Exit without signalling. The drain returns Exit,
      but `check_close` answers as before. */
  function CloseUi(c: Channels): (r: Channels)
    ensures CheckClose(r).0 == CheckClose(c).0
    ensures RecvPendingMsg(r, false).0 == Exit
  {
    var r := c.(pending := c.pending + [Exit]);
    RecvReturnsExitIffQueued(r);
    r
  }

  /** `UIReactor::check_close`: a pending signal and a vanished sender both count. */
  function CheckClose(c: Channels): (r: (bool, Channels))
    ensures r.0 <==> c.close.pending || !c.close.senderAlive
    ensures r.1.pending == c.pending && r.1.pendingOpen == c.pendingOpen && !r.1.close.pending
  {
    var (seen, close') := Check(c.close);
    (seen.Some?, c.(close := close'))
  }

  /** The non-blocking drain of `recv_pending_msg` as a reference definition: Restart
      entries are consumed until the first Exit, which is returned with the entries
      after it left queued; a queue without Exit is emptied and yields Restart. A
      disconnected, empty queue ends the drain like an empty one. */
  function DrainSpec(q: seq<Action>): (Action, seq<Action>)
    decreases |q|
  {
    if |q| == 0 then (Restart, [])
    else if q[0] == Exit then (Exit, q[1..])
    else DrainSpec(q[1..])
  }

  /** What the drain means: Exit exactly when some Exit is queued, and then everything
      after the first Exit stays queued; otherwise nothing stays. */
  lemma {:induction false} DrainSpecMeaning(q: seq<Action>)
    ensures DrainSpec(q).0 == Exit <==> Exit in q
    ensures Exit !in q ==> DrainSpec(q).1 == []
    ensures forall k :: 0 <= k < |q| && q[k] == Exit && Exit !in q[..k] ==> DrainSpec(q).1 == q[k + 1..]
    decreases |q|
  {
    if |q| > 0 {
      DrainSpecMeaning(q[1..]);
      assert Exit in q <==> q[0] == Exit || Exit in q[1..];
    }
    forall k | 0 <= k < |q| && q[k] == Exit && Exit !in q[..k]
      ensures DrainSpec(q).1 == q[k + 1..]
    {
      DrainStopsAtFirstExit(q, k);
    }
  }

  /** The drain stops at the first Exit, at position k, and leaves what follows it. */
  lemma {:induction false} DrainStopsAtFirstExit(q: seq<Action>, k: nat)
    requires k < |q| && q[k] == Exit && Exit !in q[..k]
    ensures DrainSpec(q).1 == q[k + 1..]
    decreases k
  {
    if k > 0 {
      assert q[0] in q[..k];
      assert q[1..][..k - 1] == q[1..k];
      assert forall j :: 1 <= j < k ==> q[j] == q[..k][j];
      DrainStopsAtFirstExit(q[1..], k - 1);
      assert q[1..][k..] == q[k + 1..];
    }
  }

  /** The `try_recv` loop of `recv_pending_msg`. */
  method DrainPending(q: seq<Action>) returns (a: Action, rest: seq<Action>)
    ensures (a, rest) == DrainSpec(q)
  {
    var i := 0;
    while i < |q|
      invariant 0 <= i <= |q|
      invariant DrainSpec(q) == DrainSpec(q[i..])
    {
      assert q[i..][1..] == q[i + 1..];
      if q[i] == Exit {
        return Exit, q[i + 1..];
      }
      i := i + 1;
    }
    return Restart, [];
  }

  /** `UIReactor::recv_pending_msg`. With `waitOne` a blocking receive comes first: Exit
      or a disconnected queue returns Exit at once, Restart falls through to the drain.
      The model starts once that receive has something to return: a message is queued
      or the sender is gone. */
  function RecvPendingMsg(c: Channels, waitOne: bool): (r: (Action, Channels))
    requires waitOne ==> |c.pending| > 0 || !c.pendingOpen
    ensures r.1.pendingOpen == c.pendingOpen && r.1.close == c.close
    ensures |r.1.pending| <= |c.pending|
    ensures r.1.pending == c.pending[|c.pending| - |r.1.pending|..]
  {
    if waitOne && |c.pending| == 0 then (Exit, c)
    else if waitOne && c.pending[0] == Exit then (Exit, c.(pending := c.pending[1..]))
    else
      var q := if waitOne then c.pending[1..] else c.pending;
      DrainSuffix(q);
      var (a, rest) := DrainSpec(q);
      (a, c.(pending := rest))
  }

  /** The drain leaves a suffix of the queue. */
  lemma {:induction false} DrainSuffix(q: seq<Action>)
    ensures |DrainSpec(q).1| <= |q| && DrainSpec(q).1 == q[|q| - |DrainSpec(q).1|..]
    decreases |q|
  {
    if |q| > 0 && q[0] != Exit {
      DrainSuffix(q[1..]);
    }
  }

  /** Exit has priority: the non-blocking receive returns Exit exactly when an Exit is
      queued, wherever it sits behind restarts. */
  lemma RecvReturnsExitIffQueued(c: Channels)
    ensures RecvPendingMsg(c, false).0 == Exit <==> Exit in c.pending
  {
    DrainSpecMeaning(c.pending);
  }

  /** The blocking receive returns Exit when the first message is Exit, when the queue is
      disconnected and empty, or when an Exit follows a leading Restart. */
  lemma BlockingRecvReturnsExit(c: Channels)
    requires |c.pending| > 0 || !c.pendingOpen
    ensures RecvPendingMsg(c, true).0 == Exit <==> |c.pending| == 0 || Exit in c.pending
  {
    if |c.pending| > 0 && c.pending[0] == Restart {
      DrainSpecMeaning(c.pending[1..]);
      assert Exit in c.pending <==> Exit in c.pending[1..];
    }
  }

  /** A drain that answers Restart has consumed the whole queue. */
  lemma RestartDrainEmpties(c: Channels)
    ensures RecvPendingMsg(c, false).0 == Restart ==> RecvPendingMsg(c, false).1.pending == []
  {
    DrainSpecMeaning(c.pending);
  }
}
