/** The pure parts of the Win32 wrappers: raw-input device kinds, the 32 to 64-bit tick
    widener, and the hotkey registration bookkeeping. The host's 64-bit clock and the
    answers of `RegisterHotKey` and `UnregisterHotKey` are inputs. */
module WinWrap {
  import opened Wrappers
  import opened Ints
  import opened Errors
  import KeyWindows

  // ---------------------------------------------------------------------------
  // RawDeviceType

  datatype RawDeviceType = Mouse | Keyboard | Hid | Unknown

  // `RID_DEVICE_INFO_TYPE` values of the Win32 API.
  const RIM_TYPEMOUSE: u32 := 0
  const RIM_TYPEKEYBOARD: u32 := 1
  const RIM_TYPEHID: u32 := 2

  /** The raw-input type code of each kind the API defines. */
  function RidOf(k: RawDeviceType): Option<u32> {
    match k
    case Mouse => Some(RIM_TYPEMOUSE)
    case Keyboard => Some(RIM_TYPEKEYBOARD)
    case Hid => Some(RIM_TYPEHID)
    case Unknown => None
  }

  /** `RawDeviceType::from_rid`. */
  function FromRid(t: u32): (r: RawDeviceType)
    ensures r.Unknown? <==> t > RIM_TYPEHID
  {
    if t == RIM_TYPEMOUSE then Mouse
    else if t == RIM_TYPEKEYBOARD then Keyboard
    else if t == RIM_TYPEHID then Hid
    else Unknown
  }

  /** `from_rid` reads back the code of every known kind, and a known kind comes only
      from its own code. */
  lemma FromRidInvertsRidOf(k: RawDeviceType, t: u32)
    ensures RidOf(k) == Some(t) ==> FromRid(t) == k
    ensures FromRid(t) == k && !k.Unknown? ==> RidOf(k) == Some(t)
  {
  }

  // ---------------------------------------------------------------------------
  // TickWiden

  /** Widens the 32-bit millisecond tick of window messages, which wraps every 2^32 ms
      (about 49.7 days), to 64 bits. `accuTick` is the base added to every tick and
      `lastTick` the last tick that moved the window forward. */
  datatype TickWiden = TickWiden(accuTick: u64, lastTick: u32)

  const MIN_FLUSH_TICK: u32 := 1000

  /** `MAX_SHORT_TICK`, the divisor `flush` rounds with: `u32::MAX`, which is one less
      than the period of the 32-bit tick. */
  const MAX_SHORT_TICK: u64 := U32_MAX

  /** The period of the 32-bit tick. */
  const SHORT_TICK_PERIOD: u64 := 0x1_0000_0000

  /** Host ticks stay below 2^63 ms (about 292 million years of uptime), so adding a
      32-bit tick to a base never overflows `u64`. */
  const TICK_BOUND: nat := 0x8000_0000_0000_0000

  /** The base `flush` takes from the host's 64-bit tick: the tick rounded down to a
      multiple of `period`. */
  function FlushBase(host: u64, period: u64): (r: u64)
    requires period > 0
    ensures r <= host && host - r < period
  {
    var q := host / period;
    assert host == q * period + host % period;
    q * period
  }

  /** `TickWiden::new`: the zero state, flushed once. */
  function NewTickWiden(host: u64, period: u64): (r: TickWiden)
    requires period > 0
    ensures r.lastTick == 0 && r.accuTick <= host
  {
    TickWiden(FlushBase(host, period), 0)
  }

  /** `widen`: a tick at or past `lastTick` keeps the base, and moves `lastTick` only
      when it is more than `MIN_FLUSH_TICK` ahead; a smaller tick means the 32-bit
      counter wrapped, so the base is read again from the host clock. The result is the
      base plus the tick. The source's `flush` uses `period == MAX_SHORT_TICK`. */
  function Widen(tw: TickWiden, t: u32, host: u64, period: u64): (r: (u64, TickWiden))
    requires period > 0
    requires tw.accuTick < TICK_BOUND && host < TICK_BOUND
    ensures r.0 == r.1.accuTick + t && r.1.accuTick < TICK_BOUND
    ensures r.1.lastTick <= t
    ensures t >= tw.lastTick ==> r.1.accuTick == tw.accuTick && t - r.1.lastTick <= MIN_FLUSH_TICK
    ensures t >= tw.lastTick && t - tw.lastTick > MIN_FLUSH_TICK ==> r.1.lastTick == t
    ensures t >= tw.lastTick && t - tw.lastTick <= MIN_FLUSH_TICK ==> r.1 == tw
    ensures t < tw.lastTick ==> r.1 == TickWiden(FlushBase(host, period), t)
  {
    var tw' :=
      if t >= tw.lastTick then
        (if t - tw.lastTick > MIN_FLUSH_TICK then tw.(lastTick := t) else tw)
      else
        TickWiden(FlushBase(host, period), t);
    (tw'.accuTick + t, tw')
  }

  /** The widened values of a run of ticks, the host clock read anew at each. */
  function WidenRun(tw: TickWiden, ts: seq<u32>, hosts: seq<u64>, period: u64): (r: seq<u64>)
    requires period > 0 && |hosts| == |ts|
    requires tw.accuTick < TICK_BOUND && forall i :: 0 <= i < |hosts| ==> hosts[i] < TICK_BOUND
    ensures |r| == |ts|
    decreases |ts|
  {
    if |ts| == 0 then []
    else
      var step := Widen(tw, ts[0], hosts[0], period);
      [step.0] + WidenRun(step.1, ts[1..], hosts[1..], period)
  }

  predicate NonDecreasing(ts: seq<u32>) {
    forall i, j :: 0 <= i < j < |ts| ==> ts[i] <= ts[j]
  }

  /** A run that never drops below `lastTick` never re-reads the host: every tick is
      widened against the same base. */
  lemma {:induction false} WidenRunKeepsBase(tw: TickWiden, ts: seq<u32>, hosts: seq<u64>, period: u64)
    requires period > 0 && |hosts| == |ts|
    requires tw.accuTick < TICK_BOUND && forall i :: 0 <= i < |hosts| ==> hosts[i] < TICK_BOUND
    requires NonDecreasing(ts) && (|ts| > 0 ==> ts[0] >= tw.lastTick)
    ensures forall i :: 0 <= i < |ts| ==> WidenRun(tw, ts, hosts, period)[i] == tw.accuTick + ts[i]
    decreases |ts|
  {
    if |ts| > 0 {
      var step := Widen(tw, ts[0], hosts[0], period);
      assert NonDecreasing(ts[1..]) by {
        forall i, j | 0 <= i < j < |ts| - 1
          ensures ts[1..][i] <= ts[1..][j]
        {
          assert ts[1..][i] == ts[i + 1] && ts[1..][j] == ts[j + 1];
        }
      }
      if |ts| > 1 {
        assert ts[1..][0] == ts[1] >= ts[0] >= step.1.lastTick;
      }
      WidenRunKeepsBase(step.1, ts[1..], hosts[1..], period);
      var r := WidenRun(tw, ts, hosts, period);
      forall i | 0 < i < |ts|
        ensures r[i] == tw.accuTick + ts[i]
      {
        assert r[i] == WidenRun(step.1, ts[1..], hosts[1..], period)[i - 1];
      }
    }
  }

  /** ... so a non-decreasing run of ticks at or past `lastTick` widens to a
      non-decreasing run. */
  lemma WidenRunMonotone(tw: TickWiden, ts: seq<u32>, hosts: seq<u64>, period: u64)
    requires period > 0 && |hosts| == |ts|
    requires tw.accuTick < TICK_BOUND && forall i :: 0 <= i < |hosts| ==> hosts[i] < TICK_BOUND
    requires NonDecreasing(ts) && (|ts| > 0 ==> ts[0] >= tw.lastTick)
    ensures forall i, j :: 0 <= i < j < |ts| ==>
              WidenRun(tw, ts, hosts, period)[i] <= WidenRun(tw, ts, hosts, period)[j]
  {
    WidenRunKeepsBase(tw, ts, hosts, period);
  }

  /** The base sits on a boundary of the 32-bit tick's period. */
  predicate OnBoundary(tw: TickWiden) {
    tw.accuTick % SHORT_TICK_PERIOD == 0
  }

  /** With the period of the 32-bit tick, every base is on a boundary, so a widened
      tick always ends in the 32 bits it was widened from. */
  lemma WidenKeepsLowBits(tw: TickWiden, t: u32, host: u64)
    requires tw.accuTick < TICK_BOUND && host < TICK_BOUND && OnBoundary(tw)
    ensures OnBoundary(Widen(tw, t, host, SHORT_TICK_PERIOD).1)
    ensures Widen(tw, t, host, SHORT_TICK_PERIOD).0 % SHORT_TICK_PERIOD == t
  {
    var r := Widen(tw, t, host, SHORT_TICK_PERIOD);
    LowBits(r.1.accuTick, t);
  }

  lemma LowBits(base: nat, t: u32)
    requires base % SHORT_TICK_PERIOD == 0
    ensures (base + t) % SHORT_TICK_PERIOD == t
  {
    var q := base / SHORT_TICK_PERIOD;
    assert base + t == q * SHORT_TICK_PERIOD + t;
  }

  /** The message tick is the low 32 bits of the host's tick. With the period of the
      32-bit tick, a tick that wraps, and the first tick after `new`, widen to the host
      tick exactly. */
  lemma WidenFollowsHost(tw: TickWiden, t: u32, host: u64)
    requires tw.accuTick < TICK_BOUND && host < TICK_BOUND
    requires t == host % SHORT_TICK_PERIOD
    ensures t < tw.lastTick ==> Widen(tw, t, host, SHORT_TICK_PERIOD).0 == host
    ensures Widen(NewTickWiden(host, SHORT_TICK_PERIOD), t, host, SHORT_TICK_PERIOD).0 == host
  {
  }

  /** As written, `flush` rounds to a multiple of 2^32 - 1. At host tick 2^32 + 5, whose
      low 32 bits are 5, both the first tick after `new` and a wrapped tick widen to
      2^32 + 4, which ends in 4. */
  lemma AsWrittenWidenDrifts()
    ensures Widen(NewTickWiden(0x1_0000_0005, MAX_SHORT_TICK), 5, 0x1_0000_0005, MAX_SHORT_TICK).0
            == 0x1_0000_0004
    ensures Widen(TickWiden(0, 0x1_0000), 5, 0x1_0000_0005, MAX_SHORT_TICK).0 == 0x1_0000_0004
    ensures 0x1_0000_0004 % SHORT_TICK_PERIOD != 5
  {
    assert FlushBase(0x1_0000_0005, MAX_SHORT_TICK) == 0xFFFF_FFFF;
  }

  // ---------------------------------------------------------------------------
  // Hotkeys

  /** `0x80070581`, the `HRESULT` of `ERROR_HOTKEY_ALREADY_REGISTERED` (1409), read as
      an `i32`. */
  const HRESULT_SHORTCUT_CONFLICT: i32 := -0x7FF8_FA7F

  /** What the host's `RegisterHotKey` or `UnregisterHotKey` call answered. */
  datatype HostOutcome = HostOk | HostFailed(code: i32)

  /** The modifiers handed to the host: `MOD_NOREPEAT` is ORed in unless the caller
      asked for auto-repeat. ORing in one bit adds it when it is clear. */
  function HostModifiers(modifiers: u32, repeat: bool): (r: u32)
    ensures r % KeyWindows.MOD_NOREPEAT == modifiers % KeyWindows.MOD_NOREPEAT
    ensures r / (2 * KeyWindows.MOD_NOREPEAT) == modifiers / (2 * KeyWindows.MOD_NOREPEAT)
    ensures (r / KeyWindows.MOD_NOREPEAT) % 2 == 1 <==>
              !repeat || (modifiers / KeyWindows.MOD_NOREPEAT) % 2 == 1
  {
    if repeat || (modifiers / KeyWindows.MOD_NOREPEAT) % 2 == 1 then modifiers
    else modifiers + KeyWindows.MOD_NOREPEAT
  }

  function Or16(a: u16, b: u16): u16 {
    ((a as bv16) | (b as bv16)) as u16
  }

  /** The cookie `register_hot_key` returns, `((key as u32) << 16) | modifiers`, taken
      before `MOD_NOREPEAT` is added. `key << 16` has a zero low half, so the OR joins
      the key with the high half of the modifiers and keeps their low half. */
  function HotKeyCookie(modifiers: u32, key: u16): (r: u32)
    ensures r % 0x1_0000 == modifiers % 0x1_0000
    ensures modifiers < 0x1_0000 ==> r / 0x1_0000 == key
  {
    assert Or16(key, 0) == key;
    Or16(key, modifiers / 0x1_0000) * 0x1_0000 + modifiers % 0x1_0000
  }

  /** Modifier sets of the API lie below 0x1_0000; for them the cookie splits back
      into the key (high half) and the modifiers (low half). */
  lemma HotKeyCookieDecodes(modifiers: u32, key: u16)
    requires modifiers < 0x1_0000
    ensures HotKeyCookie(modifiers, key) / 0x1_0000 == key
    ensures HotKeyCookie(modifiers, key) % 0x1_0000 == modifiers
  {
    assert Or16(key, 0) == key;
  }

  /** ... so two shortcuts share a cookie only when they are the same shortcut. */
  lemma HotKeyCookieInjective(m1: u32, k1: u16, m2: u32, k2: u16)
    requires m1 < 0x1_0000 && m2 < 0x1_0000
    ensures HotKeyCookie(m1, k1) == HotKeyCookie(m2, k2) <==> m1 == m2 && k1 == k2
  {
    HotKeyCookieDecodes(m1, k1);
    HotKeyCookieDecodes(m2, k2);
  }

  /** `register_hot_key`: the host's answer decides; a conflict gets its own error and
      any other failure is reported with its code. */
  function RegisterHotKey(modifiers: u32, key: u16, repeat: bool, host: HostOutcome): (r: Result<u32, Error>)
    ensures r.Ok? <==> host.HostOk?
    ensures r.Ok? ==> r.value == HotKeyCookie(modifiers, key)
    ensures r.Err? ==> (r.error == ShortcutConflict <==> host.code == HRESULT_SHORTCUT_CONFLICT)
    ensures r.Err? && host.code != HRESULT_SHORTCUT_CONFLICT ==> r.error == WinCore(host.code)
  {
    match host
    case HostOk => Ok(HotKeyCookie(modifiers, key))
    case HostFailed(code) =>
      if code == HRESULT_SHORTCUT_CONFLICT then Err(ShortcutConflict) else Err(WinCore(code))
  }

  /** The cookie does not depend on `repeat`: only the modifiers sent to the host do. */
  lemma CookieIgnoresRepeat(modifiers: u32, key: u16, host: HostOutcome)
    ensures RegisterHotKey(modifiers, key, true, host) == RegisterHotKey(modifiers, key, false, host)
    ensures HostModifiers(modifiers, true) == modifiers
  {
  }

  /** `HotKeyManager`: the cookie each id is registered under, and the callback of each
      cookie. */
  datatype HotKeyManager<T> = HotKeyManager(idToLparam: map<i32, u32>, lparamToCb: map<u32, T>)

  function NewHotKeyManager<T>(): (r: HotKeyManager<T>)
    ensures r.idToLparam == map[] && r.lparamToCb == map[]
  {
    HotKeyManager(map[], map[])
  }

  /** The two maps agree: the cookies with a callback are exactly the bound ones, and
      no two ids share a cookie. */
  predicate Consistent<T>(m: HotKeyManager<T>) {
    && m.lparamToCb.Keys == m.idToLparam.Values
    && forall a, b :: a in m.idToLparam && b in m.idToLparam && m.idToLparam[a] == m.idToLparam[b] ==> a == b
  }

  /** Forgets the binding of `id`, if any, in both maps. */
  function Unbind<T>(m: HotKeyManager<T>, id: i32): (r: HotKeyManager<T>)
    ensures id !in r.idToLparam && r.idToLparam == m.idToLparam - {id}
    ensures id in m.idToLparam ==> r.lparamToCb == m.lparamToCb - {m.idToLparam[id]}
    ensures id !in m.idToLparam ==> r == m
  {
    if id in m.idToLparam then HotKeyManager(m.idToLparam - {id}, m.lparamToCb - {m.idToLparam[id]})
    else m
  }

  /** `HotKeyManager::register`: forgets `id`'s old binding, unregisters it on the host
      (whose answer is ignored), then registers; only a successful registration binds
      `id` again. */
  function Register<T>(m: HotKeyManager<T>, id: i32, modifiers: u32, key: u16, repeat: bool, cb: T,
                       host: HostOutcome): (r: (Result<(), Error>, HotKeyManager<T>))
    ensures r.0.Ok? <==> host.HostOk?
    ensures r.0.Err? ==> r.0.error == RegisterHotKey(modifiers, key, repeat, host).error && r.1 == Unbind(m, id)
    ensures r.0.Ok? ==>
              var h := HotKeyCookie(modifiers, key);
              && r.1.idToLparam == Unbind(m, id).idToLparam[id := h]
              && r.1.lparamToCb == Unbind(m, id).lparamToCb[h := cb]
  {
    var m1 := Unbind(m, id);
    match RegisterHotKey(modifiers, key, repeat, host)
    case Ok(h) => (Ok(()), HotKeyManager(m1.idToLparam[id := h], m1.lparamToCb[h := cb]))
    case Err(e) => (Err(e), m1)
  }

  /** `HotKeyManager::unregister`: an unbound id is a no-op; a bound one is dropped from
      both maps before the host call, whose failure is reported with its code. */
  function Unregister<T>(m: HotKeyManager<T>, id: i32, host: HostOutcome): (r: (Result<(), Error>, HotKeyManager<T>))
    ensures id !in m.idToLparam ==> r == (Ok(()), m)
    ensures id in m.idToLparam ==> r.1 == Unbind(m, id) && (r.0.Ok? <==> host.HostOk?)
    ensures id in m.idToLparam && host.HostFailed? ==> r.0 == Err(WinCore(host.code))
  {
    if id in m.idToLparam then
      var r := match host case HostOk => Ok(()) case HostFailed(code) => Err(WinCore(code));
      (r, Unbind(m, id))
    else (Ok(()), m)
  }

  /** `HotKeyManager::get_callback`. */
  function GetCallback<T>(m: HotKeyManager<T>, lparam: u32): (r: Option<T>)
    ensures r.Some? <==> lparam in m.lparamToCb
    ensures r.Some? ==> r.value == m.lparamToCb[lparam]
  {
    if lparam in m.lparamToCb then Some(m.lparamToCb[lparam]) else None
  }

  /** After a successful registration the id is bound to the cookie, the cookie leads to
      the new callback, and every other id keeps its binding. */
  lemma RegisterThenLookup<T>(m: HotKeyManager<T>, id: i32, modifiers: u32, key: u16, repeat: bool, cb: T)
    ensures var r := Register(m, id, modifiers, key, repeat, cb, HostOk).1;
            && r.idToLparam[id] == HotKeyCookie(modifiers, key)
            && GetCallback(r, HotKeyCookie(modifiers, key)) == Some(cb)
            && forall other :: other in m.idToLparam && other != id ==>
                 other in r.idToLparam && r.idToLparam[other] == m.idToLparam[other]
  {
  }

  /** A failed registration leaves the id unbound, and the callback of its old cookie
      gone when the maps were consistent. */
  lemma FailedRegisterUnbinds<T>(m: HotKeyManager<T>, id: i32, modifiers: u32, key: u16, repeat: bool, cb: T,
                                 code: i32)
    requires Consistent(m)
    ensures var r := Register(m, id, modifiers, key, repeat, cb, HostFailed(code)).1;
            && id !in r.idToLparam
            && (id in m.idToLparam ==> GetCallback(r, m.idToLparam[id]).None?)
  {
  }

  /** Both operations keep the maps consistent, given that the host refuses a key
      combination this window has already registered. */
  lemma RegisterKeepsConsistent<T>(m: HotKeyManager<T>, id: i32, modifiers: u32, key: u16, repeat: bool, cb: T,
                                   host: HostOutcome)
    requires Consistent(m)
    requires host.HostOk? ==> HotKeyCookie(modifiers, key) !in Unbind(m, id).lparamToCb
    ensures Consistent(Register(m, id, modifiers, key, repeat, cb, host).1)
  {
    UnbindKeepsConsistent(m, id);
    var m1 := Unbind(m, id);
    if host.HostOk? {
      var h := HotKeyCookie(modifiers, key);
      var r := Register(m, id, modifiers, key, repeat, cb, host).1;
      assert r.idToLparam.Values == m1.idToLparam.Values + {h} by {
        forall v | v in r.idToLparam.Values
          ensures v in m1.idToLparam.Values + {h}
        {
          var a :| a in r.idToLparam && r.idToLparam[a] == v;
          if a != id {
            assert a in m1.idToLparam;
          }
        }
        forall v | v in m1.idToLparam.Values + {h}
          ensures v in r.idToLparam.Values
        {
          if v != h {
            var a :| a in m1.idToLparam && m1.idToLparam[a] == v;
            assert r.idToLparam[a] == v;
          } else {
            assert r.idToLparam[id] == h;
          }
        }
      }
    }
  }

  lemma UnbindKeepsConsistent<T>(m: HotKeyManager<T>, id: i32)
    requires Consistent(m)
    ensures Consistent(Unbind(m, id))
  {
    if id in m.idToLparam {
      var r := Unbind(m, id);
      var h := m.idToLparam[id];
      assert r.idToLparam.Values == m.idToLparam.Values - {h} by {
        forall v | v in m.idToLparam.Values - {h}
          ensures v in r.idToLparam.Values
        {
          var a :| a in m.idToLparam && m.idToLparam[a] == v;
          assert a != id && r.idToLparam[a] == v;
        }
        forall v | v in r.idToLparam.Values
          ensures v in m.idToLparam.Values - {h}
        {
          var a :| a in r.idToLparam && r.idToLparam[a] == v;
          assert m.idToLparam[a] == v;
        }
      }
    }
  }

  lemma UnregisterKeepsConsistent<T>(m: HotKeyManager<T>, id: i32, host: HostOutcome)
    requires Consistent(m)
    ensures Consistent(Unregister(m, id, host).1)
  {
    UnbindKeepsConsistent(m, id);
  }

  /** In consistent maps every bound id reaches a callback. */
  lemma ConsistentBindingsHaveCallbacks<T>(m: HotKeyManager<T>, id: i32)
    requires Consistent(m) && id in m.idToLparam
    ensures GetCallback(m, m.idToLparam[id]).Some?
  {
    assert m.idToLparam[id] in m.idToLparam.Values;
  }

  /** Unregistering undoes a successful registration whose cookie no other binding
      holds: what is left is the old maps without `id`. */
  lemma UnregisterUndoesRegister<T>(m: HotKeyManager<T>, id: i32, modifiers: u32, key: u16, repeat: bool, cb: T,
                                    host: HostOutcome)
    requires HotKeyCookie(modifiers, key) !in Unbind(m, id).lparamToCb
    ensures Unregister(Register(m, id, modifiers, key, repeat, cb, HostOk).1, id, host).1 == Unbind(m, id)
  {
    var m1 := Unbind(m, id);
    var h := HotKeyCookie(modifiers, key);
    var r := Register(m, id, modifiers, key, repeat, cb, HostOk).1;
    assert r.idToLparam - {id} == m1.idToLparam;
    assert r.lparamToCb - {h} == m1.lparamToCb;
  }

  /** When another binding already holds the cookie, registering overwrites that
      binding's callback and unregistering then removes it, so the other binding is
      left without a callback: register followed by unregister is not undone. */
  lemma SharedCookieLosesCallback<T>(m: HotKeyManager<T>, id: i32, modifiers: u32, key: u16, repeat: bool, cb: T,
                                     host: HostOutcome)
    requires HotKeyCookie(modifiers, key) in Unbind(m, id).lparamToCb
    ensures GetCallback(Unregister(Register(m, id, modifiers, key, repeat, cb, HostOk).1, id, host).1,
                        HotKeyCookie(modifiers, key)).None?
    ensures Unregister(Register(m, id, modifiers, key, repeat, cb, HostOk).1, id, host).1 != Unbind(m, id)
  {
  }
}
