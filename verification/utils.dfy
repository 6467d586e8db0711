/** Timing and container helpers: the tick-based rate limiter and the fixed-size
    optional array. */
module Utils {
  import opened Wrappers
  import opened Ints

  /** Allows one event per `oncePer` ticks; `next` is the first tick allowed again. */
  datatype SimpleRatelimit = SimpleRatelimit(next: u64, oncePer: u64)

  /** A fresh limiter has `next == 0`, so its first call is allowed whatever the tick. */
  function NewRatelimit(oncePer: u64): (r: SimpleRatelimit)
    ensures r.oncePer == oncePer
    ensures forall tick: u64 :: Allowed(r, tick)
  {
    SimpleRatelimit(0, oncePer)
  }

  predicate Allowed(rl: SimpleRatelimit, tick: u64) {
    tick >= rl.next
  }

  /** `allow`: on success the window moves to `tick + oncePer`; a refusal changes nothing.
      The addition is a `u64` one in the source, so it must not overflow. */
  function Allow(rl: SimpleRatelimit, tick: u64): (r: (bool, SimpleRatelimit))
    requires tick + rl.oncePer < 0x1_0000_0000_0000_0000
    ensures r.0 <==> tick >= rl.next
    ensures r.0 ==> r.1 == SimpleRatelimit(tick + rl.oncePer, rl.oncePer)
    ensures !r.0 ==> r.1 == rl
  {
    if tick >= rl.next then (true, rl.(next := tick + rl.oncePer)) else (false, rl)
  }

  /** After an allowed call at `t`, every call in `[t, t + oncePer)` is refused. */
  lemma AllowBlocksWindow(rl: SimpleRatelimit, t: u64, t': u64)
    requires t + rl.oncePer < 0x1_0000_0000_0000_0000
    requires Allow(rl, t).0
    requires t <= t' < t + rl.oncePer
    ensures !Allowed(Allow(rl, t).1, t')
  {
  }

  predicate NoOverflow(rl: SimpleRatelimit, ticks: seq<u64>) {
    forall i :: 0 <= i < |ticks| ==> ticks[i] + rl.oncePer < 0x1_0000_0000_0000_0000
  }

  /** The answers of `allow` to a run of calls, threading the limiter state. */
  function AllowRun(rl: SimpleRatelimit, ticks: seq<u64>): (r: seq<bool>)
    requires NoOverflow(rl, ticks)
    ensures |r| == |ticks|
    decreases |ticks|
  {
    if |ticks| == 0 then []
    else
      var step := Allow(rl, ticks[0]);
      [step.0] + AllowRun(step.1, ticks[1..])
  }

  /** Every allowed call of a run is at or past the window the run started with. */
  lemma {:induction false} AllowRunRespectsNext(rl: SimpleRatelimit, ticks: seq<u64>, j: nat)
    requires NoOverflow(rl, ticks)
    requires j < |ticks| && AllowRun(rl, ticks)[j]
    ensures ticks[j] >= rl.next
    decreases |ticks|
  {
    var step := Allow(rl, ticks[0]);
    if j > 0 {
      AllowRunRespectsNext(step.1, ticks[1..], j - 1);
    }
  }

  /** Rate limiting over any run of calls, in any tick order: two allowed calls are at
      least `oncePer` ticks apart. */
  lemma {:induction false} AllowedCallsAreSpaced(rl: SimpleRatelimit, ticks: seq<u64>, i: nat, j: nat)
    requires NoOverflow(rl, ticks)
    requires i < j < |ticks|
    requires AllowRun(rl, ticks)[i] && AllowRun(rl, ticks)[j]
    ensures ticks[j] >= ticks[i] + rl.oncePer
    decreases |ticks|
  {
    var step := Allow(rl, ticks[0]);
    if i == 0 {
      AllowRunRespectsNext(step.1, ticks[1..], j - 1);
    } else {
      AllowedCallsAreSpaced(step.1, ticks[1..], i - 1, j - 1);
    }
  }

  /** `reset`: keeps the phase of the window and swaps the interval. `next - oncePer`
      is a `u64` subtraction in the source, so it needs `next >= oncePer`. */
  function Reset(rl: SimpleRatelimit, v: u64): (r: SimpleRatelimit)
    requires rl.next >= rl.oncePer
    requires rl.next - rl.oncePer + v < 0x1_0000_0000_0000_0000
    ensures r.oncePer == v
    ensures r.next + rl.oncePer == rl.next + v
  {
    SimpleRatelimit(rl.next - rl.oncePer + v, v)
  }

  /** After an allowed call at `t`, resetting the interval to `v` re-times the window
      from the same `t`: the next allowed tick becomes `t + v`. */
  lemma ResetKeepsPhase(rl: SimpleRatelimit, t: u64, v: u64)
    requires t + rl.oncePer < 0x1_0000_0000_0000_0000 && t + v < 0x1_0000_0000_0000_0000
    requires Allow(rl, t).0
    ensures Reset(Allow(rl, t).1, v) == SimpleRatelimit(t + v, v)
  {
  }

  /** A fresh limiter cannot be reset: `0 - oncePer` underflows for any positive interval. */
  lemma FreshLimiterCannotReset(oncePer: u64)
    requires oncePer > 0
    ensures NewRatelimit(oncePer).next < NewRatelimit(oncePer).oncePer
  {
  }

  /** `ArrayVec<T, N>`: `N` optional slots. */
  datatype ArrayVec<T> = ArrayVec(arr: seq<Option<T>>)

  function DefaultArrayVec<T>(n: nat): (r: ArrayVec<T>)
    ensures |r.arr| == n
    ensures forall i :: 0 <= i < n ==> r.arr[i].None?
  {
    ArrayVec(seq(n, _ => None))
  }

  function ToVec<T>(a: ArrayVec<T>): (r: seq<Option<T>>)
    ensures |r| == |a.arr|
    ensures forall i :: 0 <= i < |r| ==> r[i] == a.arr[i]
  {
    a.arr
  }

  /** `ArrayVec::default().to_vec()` is `n` empty slots. */
  lemma DefaultToVecIsAllNone<T>(n: nat)
    ensures ToVec(DefaultArrayVec<T>(n)) == seq(n, _ => None)
  {
  }
}
