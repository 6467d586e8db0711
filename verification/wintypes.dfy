/** Windows wide strings and the byte buffers they travel in: resizing, the UTF-16 to
    little-endian byte conversions, splitting a NUL-separated list, and encoding text. */
module WinTypes {
  import opened Wrappers
  import opened Ints

  /** `WBuffer`: raw bytes. */
  datatype WBuffer = WBuffer(bytes: seq<u8>)

  /** `WString`: UTF-16 code units, normally ending with a 0. */
  datatype WString = WString(units: seq<u16>)

  // ---------------------------------------------------------------------------
  // `IBuffer::{new, resize}`

  /** `Vec::resize(n, fill)`: truncate, or pad with `fill`. */
  function Resize<T>(s: seq<T>, n: nat, fill: T): (r: seq<T>)
    ensures |r| == n
    ensures forall i :: 0 <= i < n && i < |s| ==> r[i] == s[i]
    ensures forall i :: |s| <= i < n ==> r[i] == fill
  {
    if n <= |s| then s[..n] else s + seq(n - |s|, _ => fill)
  }

  /** Growing and then shrinking back gives the original. */
  lemma ResizeBack<T>(s: seq<T>, n: nat, fill: T)
    requires n >= |s|
    ensures Resize(Resize(s, n, fill), |s|, fill) == s
  {
  }

  function NewWBuffer(size: u32): (r: WBuffer)
    ensures |r.bytes| == size && forall i :: 0 <= i < size ==> r.bytes[i] == 0
  {
    WBuffer(seq(size, _ => 0))
  }

  function ResizeWBuffer(b: WBuffer, size: u32): (r: WBuffer)
    ensures |r.bytes| == size
    ensures forall i :: 0 <= i < size && i < |b.bytes| ==> r.bytes[i] == b.bytes[i]
    ensures forall i :: |b.bytes| <= i < size ==> r.bytes[i] == 0
  {
    WBuffer(Resize(b.bytes, size, 0))
  }

  function NewWString(size: u32): (r: WString)
    ensures |r.units| == size && forall i :: 0 <= i < size ==> r.units[i] == 0
  {
    WString(seq(size, _ => 0))
  }

  function ResizeWString(w: WString, size: u32): (r: WString)
    ensures |r.units| == size
    ensures forall i :: 0 <= i < size && i < |w.units| ==> r.units[i] == w.units[i]
    ensures forall i :: |w.units| <= i < size ==> r.units[i] == 0
  {
    WString(Resize(w.units, size, 0))
  }

  /** A fresh buffer is the empty one resized. */
  lemma NewIsResizedEmpty(size: u32)
    ensures NewWBuffer(size) == ResizeWBuffer(WBuffer([]), size)
    ensures NewWString(size) == ResizeWString(WString([]), size)
  {
  }

  // ---------------------------------------------------------------------------
  // Units and little-endian bytes

  /** The units of `WBuffer::to_wstring`: pairs of bytes, low byte first; a lone last
      byte becomes a unit of its own. For bytes, `(hi << 8) | lo` is `hi * 0x100 + lo`. */
  function BytesToUnits(b: seq<u8>): (r: seq<u16>)
    ensures |r| == (|b| + 1) / 2
    decreases |b|
  {
    if |b| == 0 then []
    else if |b| == 1 then [b[0] as u16]
    else [(b[1] as int) * 0x100 + (b[0] as int)] + BytesToUnits(b[2..])
  }

  /** Unit `i` of a buffer is made of bytes `2i` (low) and `2i + 1` (high). */
  lemma {:induction false} BytesToUnitsAt(b: seq<u8>, i: nat)
    requires i < |b| / 2
    ensures BytesToUnits(b)[i] == (b[2 * i] as int) + 0x100 * (b[2 * i + 1] as int)
    decreases |b|
  {
    if i > 0 {
      BytesToUnitsAt(b[2..], i - 1);
      assert b[2..][2 * (i - 1)] == b[2 * i];
      assert b[2..][2 * (i - 1) + 1] == b[2 * i + 1];
    }
  }

  /** A lone last byte becomes the last unit. */
  lemma {:induction false} BytesToUnitsOdd(b: seq<u8>)
    requires |b| % 2 == 1
    ensures BytesToUnits(b)[|BytesToUnits(b)| - 1] == b[|b| - 1]
    decreases |b|
  {
    if |b| > 1 {
      BytesToUnitsOdd(b[2..]);
    }
  }

  /** `WBuffer::to_wstring`: bytes read in little-endian pairs, a lone last byte as a
      unit of its own. */
  function ToWString(b: WBuffer): (r: WString)
    ensures |r.units| == (|b.bytes| + 1) / 2
    ensures forall i :: 0 <= i < |b.bytes| / 2 ==>
              r.units[i] == (b.bytes[2 * i] as int) + 0x100 * (b.bytes[2 * i + 1] as int)
    ensures |b.bytes| % 2 == 1 ==> r.units[|r.units| - 1] == b.bytes[|b.bytes| - 1]
  {
    BytesToUnitsPairs(b.bytes);
    if |b.bytes| % 2 == 1 then
      BytesToUnitsOdd(b.bytes);
      WString(BytesToUnits(b.bytes))
    else WString(BytesToUnits(b.bytes))
  }

  lemma BytesToUnitsPairs(b: seq<u8>)
    ensures forall i :: 0 <= i < |b| / 2 ==>
              BytesToUnits(b)[i] == (b[2 * i] as int) + 0x100 * (b[2 * i + 1] as int)
  {
    forall i | 0 <= i < |b| / 2
      ensures BytesToUnits(b)[i] == (b[2 * i] as int) + 0x100 * (b[2 * i + 1] as int)
    {
      BytesToUnitsAt(b, i);
    }
  }

  /** The bytes of `WString::to_wbuffer`: each unit as its low byte (`x & 0xFF`, that
      is `x % 0x100`), then its high byte (`x >> 8`, that is `x / 0x100`). */
  function UnitsToBytes(w: seq<u16>): (r: seq<u8>)
    ensures |r| == 2 * |w|
    ensures forall i :: 0 <= i < |w| ==> r[2 * i] == w[i] % 0x100 && r[2 * i + 1] == w[i] / 0x100
    decreases |w|
  {
    if |w| == 0 then []
    else
      var rest := UnitsToBytes(w[1..]);
      assert forall i :: 1 <= i < |w| ==> w[i] == w[1..][i - 1];
      [w[0] % 0x100, w[0] / 0x100] + rest
  }

  /** `WString::to_wbuffer`: two bytes per unit, low byte first. */
  function ToWBuffer(w: WString): (r: WBuffer)
    ensures |r.bytes| == 2 * |w.units|
    ensures forall i :: 0 <= i < |w.units| ==>
              r.bytes[2 * i] == w.units[i] % 0x100 && r.bytes[2 * i + 1] == w.units[i] / 0x100
  {
    WBuffer(UnitsToBytes(w.units))
  }

  /** Round trip: bytes of a wide string read back as the same string. */
  lemma ToWStringInvertsToWBuffer(w: WString)
    ensures ToWString(ToWBuffer(w)) == w
  {
    var b := UnitsToBytes(w.units);
    var r := BytesToUnits(b);
    assert |r| == |w.units|;
    forall i | 0 <= i < |r|
      ensures r[i] == w.units[i]
    {
      BytesToUnitsAt(b, i);
    }
  }

  /** ... and an even-length buffer is the bytes of its own wide string. */
  lemma ToWBufferInvertsToWString(b: WBuffer)
    requires |b.bytes| % 2 == 0
    ensures ToWBuffer(ToWString(b)) == b
  {
    var w := BytesToUnits(b.bytes);
    var r := UnitsToBytes(w);
    assert |r| == |b.bytes|;
    forall j | 0 <= j < |r|
      ensures r[j] == b.bytes[j]
    {
      var i := j / 2;
      BytesToUnitsAt(b.bytes, i);
      ByteSplitJoin(b.bytes[2 * i], b.bytes[2 * i + 1]);
      if j % 2 == 0 {
        assert j == 2 * i;
      } else {
        assert j == 2 * i + 1;
      }
    }
  }

  /** A unit built from a low and a high byte splits back into them. */
  lemma ByteSplitJoin(lo: u8, hi: u8)
    ensures (lo as int + 0x100 * hi as int) % 0x100 == lo as int
    ensures (lo as int + 0x100 * hi as int) / 0x100 == hi as int
  {
  }

  // ---------------------------------------------------------------------------
  // `WString::split_by_eos`

  /** The fold of `split_by_eos`: `acc` is the unit run being collected, `r` the pieces
      so far. A 0 ends the run, which is kept only if it is longer than the 0 alone. */
  function FoldEos(units: seq<u16>, r: seq<seq<u16>>, acc: seq<u16>): (res: (seq<seq<u16>>, seq<u16>))
    ensures |r| <= |res.0| && res.0[..|r|] == r
    ensures forall i :: |r| <= i < |res.0| ==> |res.0[i]| > 1 && res.0[i][|res.0[i]| - 1] == 0
    ensures |units| > 0 && units[|units| - 1] == 0 ==> res.1 == []
    decreases |units|
  {
    if |units| == 0 then (r, acc)
    else
      var acc' := acc + [units[0]];
      if units[0] == 0 then
        FoldEos(units[1..], if |acc'| > 1 then r + [acc'] else r, [])
      else FoldEos(units[1..], r, acc')
  }

  /** `split_by_eos`: the pieces of the fold, and the unterminated tail if it is
      longer than one unit. */
  function SplitByEos(w: seq<u16>): (r: seq<seq<u16>>)
    ensures forall i :: 0 <= i < |r| ==> |r[i]| > 1
    ensures forall i :: 0 <= i < |r| - 1 ==> r[i][|r[i]| - 1] == 0
    ensures |w| > 0 && w[|w| - 1] == 0 ==> forall i :: 0 <= i < |r| ==> r[i][|r[i]| - 1] == 0
  {
    var f := FoldEos(w, [], []);
    if |f.1| > 1 then f.0 + [f.1] else f.0
  }

  /** Position of the first 0, or the length when there is none. */
  function ZeroIndex(w: seq<u16>): (k: nat)
    ensures k <= |w|
    decreases |w|
  {
    if |w| == 0 then 0 else if w[0] == 0 then 0 else 1 + ZeroIndex(w[1..])
  }

  /** `ZeroIndex` is the position of the first 0. */
  lemma {:induction false} ZeroIndexSpec(w: seq<u16>)
    ensures ZeroIndex(w) < |w| ==> w[ZeroIndex(w)] == 0
    ensures forall j :: 0 <= j < ZeroIndex(w) ==> w[j] != 0
    ensures ZeroIndex(w) == |w| <==> 0 !in w
    decreases |w|
  {
    if |w| > 0 && w[0] != 0 {
      ZeroIndexSpec(w[1..]);
      assert forall j :: 1 <= j < |w| ==> w[j] == w[1..][j - 1];
    }
  }

  lemma {:induction false} ZeroIndexAppend(a: seq<u16>, b: seq<u16>)
    requires ZeroIndex(a) == |a|
    ensures ZeroIndex(a + b) == |a| + ZeroIndex(b)
    decreases |a|
  {
    if |a| > 0 {
      assert (a + b)[1..] == a[1..] + b;
      ZeroIndexAppend(a[1..], b);
    } else {
      assert a + b == b;
    }
  }

  lemma {:induction false} ZeroIndexPrefix(w: seq<u16>, n: nat)
    requires ZeroIndex(w) < n <= |w|
    ensures ZeroIndex(w[..n]) == ZeroIndex(w)
    decreases |w|
  {
    if w[0] != 0 {
      assert w[..n][1..] == w[1..][..n - 1];
      ZeroIndexPrefix(w[1..], n - 1);
    }
  }

  predicate NoZero(w: seq<u16>) {
    ZeroIndex(w) == |w|
  }

  /** The first 0 of `p` is its last unit. */
  predicate EndsAtOnlyZero(p: seq<u16>) {
    |p| > 0 && ZeroIndex(p) == |p| - 1
  }

  /** The reference cut: after every 0; the last run (possibly empty) has no 0. */
  function CutAfterZeros(w: seq<u16>): (r: seq<seq<u16>>)
    ensures |r| >= 1
    decreases |w|
  {
    var k := ZeroIndex(w);
    if k == |w| then [w] else [w[..k + 1]] + CutAfterZeros(w[k + 1..])
  }

  /** The pieces longer than one unit. */
  function Long(ps: seq<seq<u16>>): (r: seq<seq<u16>>)
    ensures forall i :: 0 <= i < |r| ==> |r[i]| > 1
  {
    if |ps| == 0 then []
    else (if |ps[0]| > 1 then [ps[0]] else []) + Long(ps[1..])
  }

  lemma {:induction false} LongSubset(ps: seq<seq<u16>>)
    ensures forall p :: p in Long(ps) ==> p in ps
    decreases |ps|
  {
    if |ps| > 0 {
      LongSubset(ps[1..]);
    }
  }

  function Concat(ps: seq<seq<u16>>): seq<u16> {
    if |ps| == 0 then [] else ps[0] + Concat(ps[1..])
  }

  lemma {:induction false} LongAppend(a: seq<seq<u16>>, b: seq<seq<u16>>)
    ensures Long(a + b) == Long(a) + Long(b)
    decreases |a|
  {
    if |a| == 0 {
      assert a + b == b;
    } else {
      assert (a + b)[1..] == a[1..] + b;
      LongAppend(a[1..], b);
    }
  }

  function Init(ps: seq<seq<u16>>): seq<seq<u16>>
    requires |ps| >= 1
  {
    ps[..|ps| - 1]
  }

  function Last(ps: seq<seq<u16>>): seq<u16>
    requires |ps| >= 1
  {
    ps[|ps| - 1]
  }

  lemma LongCons(p: seq<u16>, ps: seq<seq<u16>>)
    ensures Long([p] + ps) == (if |p| > 1 then [p] else []) + Long(ps)
  {
    assert ([p] + ps)[1..] == ps;
  }

  lemma InitLastCons(p: seq<u16>, ps: seq<seq<u16>>)
    requires |ps| >= 1
    ensures Init([p] + ps) == [p] + Init(ps) && Last([p] + ps) == Last(ps)
  {
  }

  /** Cutting a run with no 0 followed by a 0 and the rest. */
  lemma CutCons(acc: seq<u16>, units: seq<u16>)
    requires NoZero(acc) && |units| > 0 && units[0] == 0
    ensures CutAfterZeros(acc + units) == [acc + [0]] + CutAfterZeros(units[1..])
  {
    var w := acc + units;
    ZeroIndexAppend(acc, units);
    assert ZeroIndex(w) == |acc|;
    assert w[..|acc| + 1] == acc + [0];
    assert w[|acc| + 1..] == units[1..];
  }

  lemma CutNoZero(acc: seq<u16>, units: seq<u16>)
    requires NoZero(acc) && |units| > 0 && units[0] != 0
    ensures CutAfterZeros(acc + units) == CutAfterZeros((acc + [units[0]]) + units[1..])
    ensures NoZero(acc + [units[0]])
  {
    assert acc + units == (acc + [units[0]]) + units[1..];
    ZeroIndexAppend(acc, [units[0]]);
    assert [units[0]][1..] == [];
  }

  /** The fold computes the reference cut: what it has collected, plus the long pieces
      of the cut of the current run and the remaining units but the last, which is the
      run still being collected. */
  lemma {:induction false} FoldEosIsCut(units: seq<u16>, r: seq<seq<u16>>, acc: seq<u16>)
    requires NoZero(acc)
    ensures FoldEos(units, r, acc).0 == r + Long(Init(CutAfterZeros(acc + units)))
    ensures FoldEos(units, r, acc).1 == Last(CutAfterZeros(acc + units))
    decreases |units|
  {
    if |units| == 0 {
      assert acc + units == acc;
    } else if units[0] == 0 {
      var piece := acc + [0];
      var r1 := if |piece| > 1 then r + [piece] else r;
      assert FoldEos(units, r, acc) == FoldEos(units[1..], r1, []);
      FoldEosIsCut(units[1..], r1, []);
      assert [] + units[1..] == units[1..];
      CutAtZeroStep(acc, units, r, r1);
    } else {
      CutNoZero(acc, units);
      FoldEosIsCut(units[1..], r, acc + [units[0]]);
    }
  }

  /** The cut of `acc + units` when `units` starts with 0, in the fold's terms. */
  lemma CutAtZeroStep(acc: seq<u16>, units: seq<u16>, r: seq<seq<u16>>, r1: seq<seq<u16>>)
    requires NoZero(acc) && |units| > 0 && units[0] == 0
    requires r1 == if |acc + [0]| > 1 then r + [acc + [0]] else r
    ensures r1 + Long(Init(CutAfterZeros(units[1..]))) == r + Long(Init(CutAfterZeros(acc + units)))
    ensures Last(CutAfterZeros(units[1..])) == Last(CutAfterZeros(acc + units))
  {
    CutCons(acc, units);
    FrontStep(r, r1, acc + [0], CutAfterZeros(units[1..]));
  }

  /** Moving a finished run from the cut to the collected pieces. */
  lemma FrontStep(r: seq<seq<u16>>, r1: seq<seq<u16>>, piece: seq<u16>, rest: seq<seq<u16>>)
    requires |rest| >= 1
    requires r1 == if |piece| > 1 then r + [piece] else r
    ensures r1 + Long(Init(rest)) == r + Long(Init([piece] + rest))
    ensures Last(rest) == Last([piece] + rest)
  {
    InitLastCons(piece, rest);
    var front: seq<seq<u16>> := if |piece| > 1 then [piece] else [];
    var tail := Long(Init(rest));
    LongCons(piece, Init(rest));
    assert r1 == r + front;
    assert (r + front) + tail == r + (front + tail);
  }

  /** `split_by_eos` against the reference: the long runs of the cut after each 0. */
  lemma SplitByEosIsLongCut(w: seq<u16>)
    ensures SplitByEos(w) == Long(CutAfterZeros(w))
    ensures SplitByEos(w) ==
              Long(Init(CutAfterZeros(w)))
              + (if |Last(CutAfterZeros(w))| > 1 then [Last(CutAfterZeros(w))] else [])
  {
    var cut := CutAfterZeros(w);
    var f := FoldEos(w, [], []);
    FoldEosIsCut(w, [], []);
    assert [] + w == w;
    assert f.0 == Long(Init(cut)) && f.1 == Last(cut);
    LongInitLast(cut);
  }

  lemma LongInitLast(cut: seq<seq<u16>>)
    requires |cut| >= 1
    ensures Long(cut) == Long(Init(cut)) + (if |Last(cut)| > 1 then [Last(cut)] else [])
  {
    assert cut == Init(cut) + [Last(cut)];
    LongAppend(Init(cut), [Last(cut)]);
    LongCons(Last(cut), []);
    assert [Last(cut)] + [] == [Last(cut)];
  }

  /** The cut loses nothing, every run but the last ends at its first 0, the last has
      no 0, and it is empty when the list ends with 0. */
  lemma {:induction false} CutAfterZerosSpec(w: seq<u16>)
    ensures Concat(CutAfterZeros(w)) == w
    ensures forall i :: 0 <= i < |CutAfterZeros(w)| - 1 ==> EndsAtOnlyZero(CutAfterZeros(w)[i])
    ensures NoZero(Last(CutAfterZeros(w)))
    ensures |w| > 0 && w[|w| - 1] == 0 ==> Last(CutAfterZeros(w)) == []
  {
    CutConcat(w);
    CutRunsEndAtZero(w);
    CutLast(w);
  }

  /** Gluing the runs back together gives the list. */
  lemma {:induction false} CutConcat(w: seq<u16>)
    ensures Concat(CutAfterZeros(w)) == w
    decreases |w|
  {
    var k := ZeroIndex(w);
    if k < |w| {
      var rest := w[k + 1..];
      CutConcat(rest);
      CutHead(w, k);
      ConcatCons(w[..k + 1], CutAfterZeros(rest));
      assert w == w[..k + 1] + rest;
    }
  }

  /** Every run but the last ends at its only 0. */
  lemma {:induction false} CutRunsEndAtZero(w: seq<u16>)
    ensures forall i :: 0 <= i < |CutAfterZeros(w)| - 1 ==> EndsAtOnlyZero(CutAfterZeros(w)[i])
    decreases |w|
  {
    var k := ZeroIndex(w);
    ZeroIndexSpec(w);
    if k < |w| {
      var rest := w[k + 1..];
      CutRunsEndAtZero(rest);
      CutHead(w, k);
      FirstRunEndsAtZero(w, k);
    }
  }

  /** The last run holds no 0, and is empty when the list ends with 0. */
  lemma {:induction false} CutLast(w: seq<u16>)
    ensures NoZero(Last(CutAfterZeros(w)))
    ensures |w| > 0 && w[|w| - 1] == 0 ==> Last(CutAfterZeros(w)) == []
    decreases |w|
  {
    var k := ZeroIndex(w);
    ZeroIndexSpec(w);
    if k < |w| {
      var rest := w[k + 1..];
      CutLast(rest);
      CutHead(w, k);
      if |rest| == 0 {
        assert CutAfterZeros(rest) == [[]];
      } else {
        assert rest[|rest| - 1] == w[|w| - 1];
      }
    }
  }

  /** The first run of the cut, when there is a 0 at `k`... */
  lemma CutHead(w: seq<u16>, k: nat)
    requires k == ZeroIndex(w) && k < |w|
    ensures CutAfterZeros(w) == [w[..k + 1]] + CutAfterZeros(w[k + 1..])
  {
  }

  /** ... ends at its only 0. */
  lemma FirstRunEndsAtZero(w: seq<u16>, k: nat)
    requires k == ZeroIndex(w) && k < |w|
    ensures EndsAtOnlyZero(w[..k + 1])
  {
    ZeroIndexPrefix(w, k + 1);
  }

  lemma ConcatCons(p: seq<u16>, ps: seq<seq<u16>>)
    ensures Concat([p] + ps) == p + Concat(ps)
  {
    assert ([p] + ps)[1..] == ps;
  }

  /** What `split_by_eos` returns: every piece has at least two units and its first 0,
      if any, is its last unit; only the last piece may lack the 0, and none does when
      the list ends with 0. A bare 0 is never a piece. */
  lemma SplitByEosSpec(w: seq<u16>)
    ensures forall i :: 0 <= i < |SplitByEos(w)| ==> |SplitByEos(w)[i]| >= 2
    ensures forall i :: 0 <= i < |SplitByEos(w)| ==>
              EndsAtOnlyZero(SplitByEos(w)[i]) || (i == |SplitByEos(w)| - 1 && NoZero(SplitByEos(w)[i]))
    ensures |w| > 0 && w[|w| - 1] == 0 ==>
              forall i :: 0 <= i < |SplitByEos(w)| ==> EndsAtOnlyZero(SplitByEos(w)[i])
  {
    SplitByEosIsLongCut(w);
    CutAfterZerosSpec(w);
    var cut := CutAfterZeros(w);
    var front := Long(Init(cut));
    LongSubset(Init(cut));
    assert forall p :: p in front ==> EndsAtOnlyZero(p) by {
      forall p | p in front
        ensures EndsAtOnlyZero(p)
      {
        var i :| 0 <= i < |Init(cut)| && Init(cut)[i] == p;
        assert p == cut[i];
      }
    }
    forall i | 0 <= i < |SplitByEos(w)|
      ensures EndsAtOnlyZero(SplitByEos(w)[i]) || (i == |SplitByEos(w)| - 1 && NoZero(SplitByEos(w)[i]))
      ensures |w| > 0 && w[|w| - 1] == 0 ==> EndsAtOnlyZero(SplitByEos(w)[i])
    {
      if i < |front| {
        assert SplitByEos(w)[i] == front[i];
        assert front[i] in front;
      }
    }
  }

  // ---------------------------------------------------------------------------
  // `WString::str_before_null`

  /** The first piece of splitting at 0: the longest prefix without a 0. */
  function StrBeforeNull(w: seq<u16>): (r: seq<u16>)
    ensures r <= w && 0 !in r
    ensures |r| < |w| ==> w[|r|] == 0
  {
    ZeroIndexSpec(w);
    ZeroIndexSpec(w[..ZeroIndex(w)]);
    w[..ZeroIndex(w)]
  }

  /** The prefix before the first 0 is the first cut run without its 0. */
  lemma StrBeforeNullIsFirstRun(w: seq<u16>)
    requires 0 in w
    ensures StrBeforeNull(w) + [0] == CutAfterZeros(w)[0]
  {
    ZeroIndexSpec(w);
    var k := ZeroIndex(w);
    assert w[..k + 1] == w[..k] + [0];
  }

  // ---------------------------------------------------------------------------
  // `WString::encode_from_str`

  predicate IsHighSurrogate(u: u16) {
    0xD800 <= u < 0xDC00
  }

  predicate IsLowSurrogate(u: u16) {
    0xDC00 <= u < 0xE000
  }

  /** `str::encode_utf16` of one character: one unit below 0x10000, else a high and a
      low surrogate. */
  function EncodeChar(c: char): (r: seq<u16>)
    ensures 1 <= |r| <= 2
    ensures |r| == 1 <==> (c as int) < 0x1_0000
    ensures |r| == 1 ==> r[0] as int == c as int && !IsHighSurrogate(r[0]) && !IsLowSurrogate(r[0])
    ensures |r| == 2 ==> IsHighSurrogate(r[0]) && IsLowSurrogate(r[1])
  {
    var v := c as int;
    if v < 0x1_0000 then [v]
    else
      var x := v - 0x1_0000;
      [0xD800 + x / 0x400, 0xDC00 + x % 0x400]
  }

  function EncodeUtf16(s: string): (r: seq<u16>)
    ensures |r| >= |s|
    ensures (forall i :: 0 <= i < |s| ==> (s[i] as int) < 0x1_0000) ==> |r| == |s|
  {
    if |s| == 0 then [] else EncodeChar(s[0]) + EncodeUtf16(s[1..])
  }

  /** `encode_from_str`: the UTF-16 encoding followed by one 0. */
  function EncodeFromStr(s: string): (r: WString)
    ensures |r.units| >= |s| + 1 && r.units[|r.units| - 1] == 0
  {
    WString(EncodeUtf16(s) + [0])
  }

  /** The decoder the encoding is checked against; `None` on an unpaired surrogate. */
  function DecodeUtf16(w: seq<u16>): (r: Option<string>)
    decreases |w|
  {
    if |w| == 0 then Some([])
    else if IsHighSurrogate(w[0]) then
      if |w| >= 2 && IsLowSurrogate(w[1]) then
        var hi: int := w[0];
        var lo: int := w[1];
        var v := 0x1_0000 + (hi - 0xD800) * 0x400 + (lo - 0xDC00);
        match DecodeUtf16(w[2..])
        case None => None
        case Some(rest) => Some([v as char] + rest)
      else None
    else if IsLowSurrogate(w[0]) then None
    else
      match DecodeUtf16(w[1..])
      case None => None
      case Some(rest) => Some([w[0] as char] + rest)
  }

  lemma DecodeEncodeChar(c: char, rest: seq<u16>)
    ensures DecodeUtf16(EncodeChar(c) + rest) ==
              match DecodeUtf16(rest)
              case None => None
              case Some(t) => Some([c] + t)
  {
    var w := EncodeChar(c) + rest;
    if (c as int) < 0x1_0000 {
      assert w[1..] == rest;
    } else {
      assert w[2..] == rest;
    }
  }

  /** Round trip: decoding the encoding of any text gives the text back. */
  lemma {:induction false} DecodeEncodeUtf16(s: string)
    ensures DecodeUtf16(EncodeUtf16(s)) == Some(s)
    decreases |s|
  {
    if |s| > 0 {
      DecodeEncodeUtf16(s[1..]);
      DecodeEncodeChar(s[0], EncodeUtf16(s[1..]));
      assert [s[0]] + s[1..] == s;
    }
  }

  /** For text without NUL, the string before the terminating 0 is exactly the
      encoding, and it decodes back to the text. */
  lemma EncodeFromStrBeforeNull(s: string)
    requires '\0' !in s
    ensures StrBeforeNull(EncodeFromStr(s).units) == EncodeUtf16(s)
    ensures DecodeUtf16(StrBeforeNull(EncodeFromStr(s).units)) == Some(s)
  {
    EncodeHasNoZero(s);
    ZeroIndexSpec(EncodeUtf16(s));
    ZeroIndexAppend(EncodeUtf16(s), [0]);
    assert (EncodeUtf16(s) + [0])[..|EncodeUtf16(s)|] == EncodeUtf16(s);
    DecodeEncodeUtf16(s);
  }

  lemma {:induction false} EncodeHasNoZero(s: string)
    requires '\0' !in s
    ensures 0 !in EncodeUtf16(s)
    decreases |s|
  {
    if |s| > 0 {
      assert s[0] != '\0';
      EncodeHasNoZero(s[1..]);
    }
  }

  /** For ASCII text the encoding is the character codes, one unit each. */
  lemma EncodeFromStrAscii(s: string)
    requires forall i :: 0 <= i < |s| ==> (s[i] as int) < 0x80
    ensures |EncodeFromStr(s).units| == |s| + 1
    ensures forall i :: 0 <= i < |s| ==> EncodeFromStr(s).units[i] == s[i] as int
  {
    AsciiUnits(s);
  }

  lemma {:induction false} AsciiUnits(s: string)
    requires forall i :: 0 <= i < |s| ==> (s[i] as int) < 0x80
    ensures |EncodeUtf16(s)| == |s|
    ensures forall i :: 0 <= i < |s| ==> EncodeUtf16(s)[i] == s[i] as int
    decreases |s|
  {
    if |s| > 0 {
      AsciiUnits(s[1..]);
    }
  }
}
