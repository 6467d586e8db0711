/** Reading a shortcut back from its `Mod+Mod+Key` text (`shortcut_from_str`), and the
    grammar that reading follows. The key-name lookup is a parameter `keys` of the
    general definitions, so the grammar holds for any lookup; `ShortcutFromStr` fixes
    it to `StrToKey`. */
module ShortcutText {
  import opened Wrappers
  import opened Keyboard

  type KeyTable = string -> Option<Code>

  /** The parser's two accumulators. */
  datatype ParseState = ParseState(m: Option<Modifiers>, key: Option<Code>)

  const Start: ParseState := ParseState(None, None)

  /** The `match_one` closure; `None` stands for its `false` (reject). A modifier name
      is always taken; a key name only while no key has been seen. */
  function MatchOne(keys: KeyTable, st: ParseState, sub: string): Option<ParseState> {
    match ModName(sub)
    case Some(mm) => Some(st.(m := ModifierOr(st.m, mm)))
    case None =>
      if st.key.Some? then None
      else
        match keys(sub)
        case Some(k) => Some(st.(key := Some(k)))
        case None => None
  }

  /** The character loop of `shortcut_from_str`: `i` is the position examined, `last`
      the start of the current segment. `None` means the function returned `None`. */
  function ScanChars(keys: KeyTable, s: string, i: nat, last: nat, st: ParseState): Option<ParseState>
    requires last <= i <= |s|
    decreases |s| - i
  {
    if i == |s| then MatchOne(keys, st, s[last..])
    else if s[i] == '+' then
      if i == 0 then None
      else
        match MatchOne(keys, st, s[last..i])
        case None => None
        case Some(st') => ScanChars(keys, s, i + 1, i + 1, st')
    else ScanChars(keys, s, i + 1, last, st)
  }

  /** The final check: both a modifier and a key must have been seen. */
  function Finish(st: Option<ParseState>): Option<(Modifiers, Code)> {
    match st
    case Some(ParseState(Some(m), Some(k))) => Some((m, k))
    case _ => None
  }

  function ParseShortcut(keys: KeyTable, s: string): Option<(Modifiers, Code)> {
    Finish(ScanChars(keys, s, 0, 0, Start))
  }

  /** `shortcut_from_str`: the scan over the program's key table. A key it returns
      always has a name. */
  function ShortcutFromStr(s: string): (r: Option<(Modifiers, Code)>)
    ensures r.Some? ==> Named(r.value.1)
  {
    ParsedKeyIsNamed(s);
    ParseShortcut(StrToKey, s)
  }

  // ---------------------------------------------------------------------------
  // The grammar, stated independently of the loop

  function IndexOfPlus(s: string): (i: nat)
    requires '+' in s
    ensures i < |s| && s[i] == '+' && '+' !in s[..i]
  {
    if s[0] == '+' then 0
    else
      assert '+' in s[1..] by {
        var j :| 0 <= j < |s| && s[j] == '+';
        assert s[1..][j - 1] == '+';
      }
      var k := IndexOfPlus(s[1..]);
      assert s[..k + 1] == [s[0]] + s[1..][..k];
      k + 1
  }

  /** The segments between separators; there is always at least one. */
  function Split(s: string): (r: seq<string>)
    ensures |r| >= 1
    decreases |s|
  {
    if '+' !in s then [s]
    else
      var i := IndexOfPlus(s);
      [s[..i]] + Split(s[i + 1..])
  }

  /** `match_one` applied to the segments in order, stopping at the first rejection. */
  function Fold(keys: KeyTable, st: ParseState, segs: seq<string>): Option<ParseState>
    decreases |segs|
  {
    if |segs| == 0 then Some(st)
    else
      match MatchOne(keys, st, segs[0])
      case None => None
      case Some(st') => Fold(keys, st', segs[1..])
  }

  predicate LeadingPlus(s: string) {
    |s| > 0 && s[0] == '+'
  }

  /** The loop is the fold of `match_one` over the segments, unless the text starts
      with a separator. */
  lemma {:induction false} ScanCharsIsFold(keys: KeyTable, s: string, i: nat, last: nat, st: ParseState)
    requires last <= i <= |s| && '+' !in s[last..i]
    requires i > 0 || !LeadingPlus(s)
    ensures ScanChars(keys, s, i, last, st) == Fold(keys, st, Split(s[last..]))
    decreases |s| - i
  {
    if i == |s| {
      assert s[last..] == s[last..i];
    } else if s[i] == '+' {
      SplitAtPlus(s, last, i);
      match MatchOne(keys, st, s[last..i])
      case None =>
      case Some(st') =>
        assert s[i + 1..i + 1] == [];
        ScanCharsIsFold(keys, s, i + 1, i + 1, st');
        assert s[i + 1..] == s[i + 1..][0..];
    } else {
      assert s[last..i + 1] == s[last..i] + [s[i]];
      ScanCharsIsFold(keys, s, i + 1, last, st);
    }
  }

  /** The first separator at or after `last` ends the first segment of `s[last..]`. */
  lemma SplitAtPlus(s: string, last: nat, i: nat)
    requires last <= i < |s| && s[i] == '+' && '+' !in s[last..i]
    ensures Split(s[last..]) == [s[last..i]] + Split(s[i + 1..])
  {
    var t := s[last..];
    assert t[i - last] == '+';
    var k := IndexOfPlus(t);
    assert t[..i - last] == s[last..i];
    assert t[k + 1..] == s[i + 1..];
  }

  lemma ParseBySegments(keys: KeyTable, s: string)
    ensures ParseShortcut(keys, s) == if LeadingPlus(s) then None else Finish(Fold(keys, Start, Split(s)))
  {
    if !LeadingPlus(s) {
      assert s[0..0] == [];
      ScanCharsIsFold(keys, s, 0, 0, Start);
      assert s[0..] == s;
    }
  }

  predicate Recognized(keys: KeyTable, seg: string) {
    ModName(seg).Some? || keys(seg).Some?
  }

  /** A segment that names a key and not a modifier. */
  predicate IsKeySeg(keys: KeyTable, seg: string) {
    ModName(seg).None? && keys(seg).Some?
  }

  /** The key codes named by the non-modifier segments, in order. */
  function KeysIn(keys: KeyTable, segs: seq<string>): seq<Code>
    decreases |segs|
  {
    if |segs| == 0 then []
    else
      (if IsKeySeg(keys, segs[0]) then [keys(segs[0]).value] else [])
      + KeysIn(keys, segs[1..])
  }

  function OptUnion(a: Option<Modifiers>, b: Option<Modifiers>): Option<Modifiers> {
    match (a, b)
    case (None, _) => b
    case (_, None) => a
    case (Some(x), Some(y)) => Some(Union(x, y))
  }

  /** The union of the modifiers the segments name, `None` if they name none. */
  function ModsIn(segs: seq<string>): Option<Modifiers>
    decreases |segs|
  {
    if |segs| == 0 then None else OptUnion(ModName(segs[0]), ModsIn(segs[1..]))
  }

  /** What the fold computes: it succeeds iff every segment is a modifier or key name
      and at most one key is given in all; it then holds the union of the modifiers
      and that key. */
  lemma {:induction false} FoldSpec(keys: KeyTable, st: ParseState, segs: seq<string>)
    ensures Fold(keys, st, segs).Some? <==>
              (forall j :: 0 <= j < |segs| ==> Recognized(keys, segs[j]))
              && |KeysIn(keys, segs)| + (if st.key.Some? then 1 else 0) <= 1
    ensures Fold(keys, st, segs).Some? ==>
              Fold(keys, st, segs).value ==
                ParseState(OptUnion(st.m, ModsIn(segs)),
                           if |KeysIn(keys, segs)| == 1 then Some(KeysIn(keys, segs)[0]) else st.key)
    decreases |segs|
  {
    if |segs| > 0 {
      var tail := segs[1..];
      assert forall j :: 1 <= j < |segs| ==> segs[j] == tail[j - 1];
      match MatchOne(keys, st, segs[0])
      case None =>
      case Some(st') =>
        FoldSpec(keys, st', tail);
        match ModName(segs[0])
        case Some(mm) =>
          assert OptUnion(st.m, ModsIn(segs)) == OptUnion(st'.m, ModsIn(tail));
        case None =>
    }
  }

  /** The parser against the grammar: it accepts exactly the texts that do not start
      with `+`, whose segments are all modifier or key names, that name exactly one key
      and at least one modifier; the result is their union and that key. */
  lemma ParseSpec(keys: KeyTable, s: string, m: Modifiers, c: Code)
    ensures ParseShortcut(keys, s) == Some((m, c)) <==>
              && !LeadingPlus(s)
              && (forall j :: 0 <= j < |Split(s)| ==> Recognized(keys, Split(s)[j]))
              && KeysIn(keys, Split(s)) == [c]
              && ModsIn(Split(s)) == Some(m)
  {
    ParseBySegments(keys, s);
    FoldSpec(keys, Start, Split(s));
  }

  /** The same, for the program's key table. */
  lemma ShortcutFromStrSpec(s: string, m: Modifiers, c: Code)
    ensures ShortcutFromStr(s) == Some((m, c)) <==>
              && !LeadingPlus(s)
              && (forall j :: 0 <= j < |Split(s)| ==> Recognized(StrToKey, Split(s)[j]))
              && KeysIn(StrToKey, Split(s)) == [c]
              && ModsIn(Split(s)) == Some(m)
  {
    ParseSpec(StrToKey, s, m, c);
  }

  /** Every lookup of the program's table yields a named code. */
  ghost predicate TableNamed(keys: KeyTable) {
    forall s :: keys(s).Some? ==> Named(keys(s).value)
  }

  lemma StrToKeyIsNamed()
    ensures TableNamed(StrToKey)
  {
    forall s | StrToKey(s).Some?
      ensures Named(StrToKey(s).value)
    {
      KeyToStrInvertsStrToKey(s);
    }
  }

  lemma {:induction false} KeysInNamed(keys: KeyTable, segs: seq<string>)
    requires TableNamed(keys)
    ensures forall i :: 0 <= i < |KeysIn(keys, segs)| ==> Named(KeysIn(keys, segs)[i])
    decreases |segs|
  {
    if |segs| > 0 {
      KeysInNamed(keys, segs[1..]);
      KeysInCons(keys, segs[0], segs[1..]);
      assert segs == [segs[0]] + segs[1..];
    }
  }

  /** The key the scan returns over the program's key table is always one with a name. */
  lemma ParsedKeyIsNamed(s: string)
    ensures ParseShortcut(StrToKey, s).Some? ==> Named(ParseShortcut(StrToKey, s).value.1)
  {
    var r := ParseShortcut(StrToKey, s);
    if r.Some? {
      assert ParseShortcut(StrToKey, s) == Some((r.value.0, r.value.1));
      ParseSpec(StrToKey, s, r.value.0, r.value.1);
      assert KeysIn(StrToKey, Split(s))[0] == r.value.1;
      StrToKeyIsNamed();
      KeysInNamed(StrToKey, Split(s));
    }
  }

  lemma FoldRejectsAt(keys: KeyTable, st: ParseState, segs: seq<string>, j: nat)
    requires j < |segs| && !Recognized(keys, segs[j])
    ensures Fold(keys, st, segs).None?
  {
    FoldSpec(keys, st, segs);
  }

  lemma {:induction false} KeysInHasKey(keys: KeyTable, segs: seq<string>, i: nat)
    requires i < |segs| && IsKeySeg(keys, segs[i])
    ensures |KeysIn(keys, segs)| >= 1
    decreases |segs|
  {
    if i > 0 {
      KeysInHasKey(keys, segs[1..], i - 1);
    }
  }

  lemma {:induction false} KeysInHasTwoKeys(keys: KeyTable, segs: seq<string>, i: nat, j: nat)
    requires i < j < |segs| && IsKeySeg(keys, segs[i]) && IsKeySeg(keys, segs[j])
    ensures |KeysIn(keys, segs)| >= 2
    decreases |segs|
  {
    if i > 0 {
      KeysInHasTwoKeys(keys, segs[1..], i - 1, j - 1);
    } else {
      KeysInHasKey(keys, segs[1..], j - 1);
    }
  }

  /** Two key segments make the fold fail, wherever they are. */
  lemma FoldRejectsTwoKeys(keys: KeyTable, st: ParseState, segs: seq<string>, i: nat, j: nat)
    requires i < j < |segs| && IsKeySeg(keys, segs[i]) && IsKeySeg(keys, segs[j])
    ensures Fold(keys, st, segs).None?
  {
    KeysInHasTwoKeys(keys, segs, i, j);
    FoldSpec(keys, st, segs);
  }

  /** A text ending in `+` is always rejected: its last segment is empty, and the empty
      text names neither a modifier nor, in the program's table, a key. */
  lemma TrailingPlusRejected(keys: KeyTable, s: string)
    requires keys("").None?
    requires |s| > 0 && s[|s| - 1] == '+'
    ensures ParseShortcut(keys, s).None?
  {
    ParseBySegments(keys, s);
    if !LeadingPlus(s) {
      var segs := Split(s);
      LastSegmentEmpty(s);
      FoldRejectsAt(keys, Start, segs, |segs| - 1);
    }
  }

  lemma {:induction false} LastSegmentEmpty(s: string)
    requires |s| > 0 && s[|s| - 1] == '+'
    ensures Split(s)[|Split(s)| - 1] == ""
    decreases |s|
  {
    assert '+' in s;
    var i := IndexOfPlus(s);
    if i < |s| - 1 {
      LastSegmentEmpty(s[i + 1..]);
    } else {
      assert s[i + 1..] == "";
      assert '+' !in "";
    }
  }

  // ---------------------------------------------------------------------------
  // Joining segments

  /** The text the separator joins a list of segments into. */
  function Join(segs: seq<string>): string
    requires |segs| >= 1
    decreases |segs|
  {
    if |segs| == 1 then segs[0] else segs[0] + "+" + Join(segs[1..])
  }

  lemma {:induction false} SplitCons(a: string, rest: string)
    requires '+' !in a
    ensures Split(a + "+" + rest) == [a] + Split(rest)
  {
    var s := a + "+" + rest;
    assert s[|a|] == '+';
    var i := IndexOfPlus(s);
    assert s[..i] == a;
    assert s[i + 1..] == rest;
  }

  /** Splitting undoes joining segments free of separators. */
  lemma {:induction false} SplitJoin(segs: seq<string>)
    requires |segs| >= 1
    requires forall j :: 0 <= j < |segs| ==> '+' !in segs[j]
    ensures Split(Join(segs)) == segs
    decreases |segs|
  {
    if |segs| > 1 {
      var rest := segs[1..];
      assert forall j :: 0 <= j < |rest| ==> '+' !in rest[j] by {
        forall j | 0 <= j < |rest| ensures '+' !in rest[j] {
          assert rest[j] == segs[j + 1];
        }
      }
      SplitJoin(rest);
      JoinCons(segs);
      SplitCons(segs[0], Join(rest));
    }
  }

  lemma JoinCons(segs: seq<string>)
    requires |segs| > 1
    ensures Join(segs) == segs[0] + "+" + Join(segs[1..])
    ensures segs == [segs[0]] + segs[1..]
  {
  }

  /** Joined text starts with the first segment. */
  lemma JoinNoLeadingPlus(segs: seq<string>)
    requires |segs| >= 1 && |segs[0]| > 0 && '+' !in segs[0]
    ensures !LeadingPlus(Join(segs))
  {
    assert Join(segs)[0] == segs[0][0];
  }

  /** The parser on joined segments: it succeeds iff every segment is recognized,
      exactly one names a key and some name a modifier. */
  lemma ParseJoin(keys: KeyTable, segs: seq<string>)
    requires |segs| >= 1 && |segs[0]| > 0
    requires forall j :: 0 <= j < |segs| ==> '+' !in segs[j]
    ensures ParseShortcut(keys, Join(segs)) ==
              if (forall j :: 0 <= j < |segs| ==> Recognized(keys, segs[j]))
                 && |KeysIn(keys, segs)| == 1 && ModsIn(segs).Some?
              then Some((ModsIn(segs).value, KeysIn(keys, segs)[0]))
              else None
  {
    SplitJoin(segs);
    JoinNoLeadingPlus(segs);
    ParseBySegments(keys, Join(segs));
    FoldSpec(keys, Start, segs);
  }

  // ---------------------------------------------------------------------------
  // Round trip with `shortcut_to_str`

  /** `[name]` when `b` holds, else nothing. */
  function OptSeg(b: bool, name: string): seq<string> {
    if b then [name] else []
  }

  /** The text `shortcut_to_str` writes for a set without the Windows key and key name
      `k`, grouped from the right. */
  function ModText(m: Modifiers, k: string): string {
    Opt(m.ctrl, "Ctrl+") + (Opt(m.alt, "Alt+") + (Opt(m.shift, "Shift+") + k))
  }

  /** The segments of `ModText(m, k)`. */
  function ModSegs(m: Modifiers, k: string): seq<string> {
    OptSeg(m.ctrl, "Ctrl") + (OptSeg(m.alt, "Alt") + (OptSeg(m.shift, "Shift") + [k]))
  }

  lemma Assoc5(a: string, b: string, c: string, d: string, e: string)
    ensures a + b + c + d + e == a + (b + (c + (d + e)))
  {
  }

  lemma ShortcutToStrNoMeta(m: Modifiers, c: Code)
    requires !m.meta
    ensures ShortcutToStr(m, Some(c)) == ModText(m, KeyToStr(c))
  {
    DropEmpty(Opt(m.ctrl, "Ctrl+"), Opt(m.meta, META_STR), Opt(m.alt, "Alt+"), Opt(m.shift, "Shift+"), KeyText(Some(c)));
  }

  lemma DropEmpty(a: string, b: string, c: string, d: string, e: string)
    requires b == ""
    ensures a + b + c + d + e == a + (c + (d + e))
  {
  }

  lemma SplitOptPrefix(b: bool, name: string, text: string, rest: string)
    requires '+' !in name && text == name + "+"
    ensures Split(Opt(b, text) + rest) == OptSeg(b, name) + Split(rest)
  {
    if b {
      SplitCons(name, rest);
      assert name + "+" + rest == Opt(b, text) + rest;
    } else {
      assert Opt(b, text) + rest == rest;
    }
  }

  lemma SplitModText(m: Modifiers, k: string)
    requires '+' !in k
    ensures Split(ModText(m, k)) == ModSegs(m, k)
  {
    var t2 := Opt(m.shift, "Shift+") + k;
    var t1 := Opt(m.alt, "Alt+") + t2;
    SplitOptPrefix(m.shift, "Shift", "Shift+", k);
    SplitOptPrefix(m.alt, "Alt", "Alt+", t2);
    SplitOptPrefix(m.ctrl, "Ctrl", "Ctrl+", t1);
    assert Split(k) == [k];
  }

  lemma {:induction false} KeysInCons(keys: KeyTable, seg: string, rest: seq<string>)
    ensures KeysIn(keys, [seg] + rest) == KeysIn(keys, [seg]) + KeysIn(keys, rest)
    ensures ModsIn([seg] + rest) == OptUnion(ModName(seg), ModsIn(rest))
  {
    assert ([seg] + rest)[1..] == rest;
    assert [seg][1..] == [];
  }

  /** A lone key segment. */
  lemma KeySegment(keys: KeyTable, k: string, c: Code)
    requires ModName(k).None? && keys(k) == Some(c)
    ensures KeysIn(keys, [k]) == [c] && ModsIn([k]) == None
    ensures forall j :: 0 <= j < |[k]| ==> Recognized(keys, [k][j])
  {
    assert [k][1..] == [];
  }

  /** A modifier segment in front adds its modifier and no key, and is recognized. */
  lemma OptSegOfModifier(keys: KeyTable, b: bool, name: string, mm: Modifiers, rest: seq<string>)
    requires ModName(name) == Some(mm)
    ensures KeysIn(keys, OptSeg(b, name) + rest) == KeysIn(keys, rest)
    ensures ModsIn(OptSeg(b, name) + rest) == OptUnion(if b then Some(mm) else None, ModsIn(rest))
    ensures (forall j :: 0 <= j < |rest| ==> Recognized(keys, rest[j])) ==>
              forall j :: 0 <= j < |OptSeg(b, name) + rest| ==> Recognized(keys, (OptSeg(b, name) + rest)[j])
  {
    if b {
      KeysInCons(keys, name, rest);
      assert KeysIn(keys, [name]) == [];
    } else {
      assert OptSeg(b, name) + rest == rest;
    }
  }

  /** A modifier prefix followed by a key name parses back to that set and key. */
  lemma ParseModText(keys: KeyTable, m: Modifiers, k: string, c: Code)
    requires !m.meta && !IsEmpty(m)
    requires '+' !in k && ModName(k).None? && keys(k) == Some(c)
    ensures ParseShortcut(keys, ModText(m, k)) == Some((m, c))
  {
    var s := ModText(m, k);
    SplitModText(m, k);
    var segs := ModSegs(m, k);
    var r2 := OptSeg(m.shift, "Shift") + [k];
    var r1 := OptSeg(m.alt, "Alt") + r2;
    KeySegment(keys, k, c);
    OptSegOfModifier(keys, m.shift, "Shift", SHIFT, [k]);
    OptSegOfModifier(keys, m.alt, "Alt", ALT, r2);
    OptSegOfModifier(keys, m.ctrl, "Ctrl", CONTROL, r1);
    assert ModsIn(segs) == Some(m);
    assert !LeadingPlus(s) by {
      if m.ctrl { assert s[0] == 'C'; }
      else if m.alt { assert s[0] == 'A'; }
      else { assert s[0] == 'S'; }
    }
    ParseSpec(keys, s, m, c);
  }

  /** Round trip: every shortcut without the Windows key, with at least one modifier
      and a named key, is read back by `shortcut_from_str` as written. */
  lemma ShortcutRoundTrip(m: Modifiers, c: Code)
    requires !m.meta && !IsEmpty(m) && Named(c)
    ensures ShortcutFromStr(ShortcutToStr(m, Some(c))) == Some((m, c))
  {
    StrToKeyInvertsKeyToStr(c);
    ShortcutToStrNoMeta(m, c);
    ParseModText(StrToKey, m, KeyToStr(c), c);
  }

  /** The segments of any printed shortcut with a key, the Windows key included: the
      modifiers in the fixed order Ctrl, Win, Alt, Shift, then the key name. */
  function PrintedSegs(m: Modifiers, k: string): seq<string> {
    OptSeg(m.ctrl, "Ctrl") + (OptSeg(m.meta, "Win") + (OptSeg(m.alt, "Alt") + (OptSeg(m.shift, "Shift") + [k])))
  }

  /** The printed text grouped from the right. */
  function PrintedText(m: Modifiers, k: string): string {
    Opt(m.ctrl, "Ctrl+") + (Opt(m.meta, META_STR) + (Opt(m.alt, "Alt+") + (Opt(m.shift, "Shift+") + k)))
  }

  lemma ShortcutToStrGrouped(m: Modifiers, c: Code)
    ensures ShortcutToStr(m, Some(c)) == PrintedText(m, KeyToStr(c))
  {
    Assoc5(Opt(m.ctrl, "Ctrl+"), Opt(m.meta, META_STR), Opt(m.alt, "Alt+"), Opt(m.shift, "Shift+"), KeyToStr(c));
  }

  lemma SplitPrintedText(m: Modifiers, k: string)
    requires '+' !in k
    ensures Split(PrintedText(m, k)) == PrintedSegs(m, k)
  {
    var t3 := Opt(m.shift, "Shift+") + k;
    var t2 := Opt(m.alt, "Alt+") + t3;
    var t1 := Opt(m.meta, META_STR) + t2;
    SplitOptPrefix(m.shift, "Shift", "Shift+", k);
    SplitOptPrefix(m.alt, "Alt", "Alt+", t3);
    SplitOptPrefix(m.meta, "Win", META_STR, t2);
    SplitOptPrefix(m.ctrl, "Ctrl", "Ctrl+", t1);
    assert Split(k) == [k];
  }

  /** `shortcut_to_str` writes its segments in the fixed order, for every modifier set. */
  lemma ShortcutToStrSegments(m: Modifiers, c: Code)
    ensures Split(ShortcutToStr(m, Some(c))) == PrintedSegs(m, KeyToStr(c))
  {
    ShortcutToStrGrouped(m, c);
    SplitPrintedText(m, KeyToStr(c));
  }

  lemma WinIsNotAName()
    ensures !Recognized(StrToKey, "Win")
  {
  }

  /** Any text with a segment "Win" after an optional "Ctrl" is rejected. */
  lemma WinSegmentRejected(keys: KeyTable, ctrl: bool, rest: string)
    requires keys("Win").None?
    ensures ParseShortcut(keys, Opt(ctrl, "Ctrl+") + ("Win" + "+" + rest)).None?
  {
    var s := Opt(ctrl, "Ctrl+") + ("Win" + "+" + rest);
    SplitOptPrefix(ctrl, "Ctrl", "Ctrl+", "Win" + "+" + rest);
    SplitCons("Win", rest);
    var segs := Split(s);
    var j := if ctrl then 1 else 0;
    assert segs[j] == "Win";
    FoldRejectsAt(keys, Start, segs, j);
    ParseBySegments(keys, s);
  }

  lemma WinText(rest: string)
    ensures META_STR + rest == "Win" + "+" + rest
  {
  }

  /** The Windows key does not round-trip: its text `Win+` splits into a segment "Win",
      which is neither a modifier nor a key name. */
  lemma MetaNeverRoundTrips(m: Modifiers, code: Option<Code>)
    requires m.meta
    ensures ShortcutFromStr(ShortcutToStr(m, code)).None?
  {
    var rest := Opt(m.alt, "Alt+") + (Opt(m.shift, "Shift+") + KeyText(code));
    Assoc5(Opt(m.ctrl, "Ctrl+"), Opt(m.meta, META_STR), Opt(m.alt, "Alt+"), Opt(m.shift, "Shift+"), KeyText(code));
    WinText(rest);
    WinIsNotAName();
    WinSegmentRejected(StrToKey, m.ctrl, rest);
  }

  // ---------------------------------------------------------------------------
  // Rejections

  /** A text starting with the separator is rejected before any segment is looked at. */
  lemma LeadingPlusRejected(keys: KeyTable, s: string)
    requires LeadingPlus(s)
    ensures ParseShortcut(keys, s).None?
  {
    ParseBySegments(keys, s);
  }

  /** Joined segments with one that is neither a modifier nor a key name. */
  lemma ParseJoinRejectsAt(keys: KeyTable, segs: seq<string>, j: nat)
    requires |segs| >= 1 && |segs[0]| > 0
    requires forall i :: 0 <= i < |segs| ==> '+' !in segs[i]
    requires j < |segs| && !Recognized(keys, segs[j])
    ensures ParseShortcut(keys, Join(segs)).None?
  {
    SplitJoin(segs);
    JoinNoLeadingPlus(segs);
    ParseBySegments(keys, Join(segs));
    FoldRejectsAt(keys, Start, segs, j);
  }

  /** Joined segments with two key names. */
  lemma ParseJoinRejectsTwoKeys(keys: KeyTable, segs: seq<string>, i: nat, j: nat)
    requires |segs| >= 1 && |segs[0]| > 0
    requires forall k :: 0 <= k < |segs| ==> '+' !in segs[k]
    requires i < j < |segs| && IsKeySeg(keys, segs[i]) && IsKeySeg(keys, segs[j])
    ensures ParseShortcut(keys, Join(segs)).None?
  {
    SplitJoin(segs);
    JoinNoLeadingPlus(segs);
    ParseBySegments(keys, Join(segs));
    FoldRejectsTwoKeys(keys, Start, segs, i, j);
  }

  lemma {:induction false} KeysInOfModifiers(keys: KeyTable, segs: seq<string>)
    requires forall j :: 0 <= j < |segs| ==> ModName(segs[j]).Some?
    ensures KeysIn(keys, segs) == []
    decreases |segs|
  {
    if |segs| > 0 {
      KeysInOfModifiers(keys, segs[1..]);
    }
  }

  lemma {:induction false} ModsInOfNonModifiers(segs: seq<string>)
    requires forall j :: 0 <= j < |segs| ==> ModName(segs[j]).None?
    ensures ModsIn(segs) == None
    decreases |segs|
  {
    if |segs| > 0 {
      ModsInOfNonModifiers(segs[1..]);
    }
  }

  /** Joined modifier names alone: no key, so rejected. */
  lemma ParseJoinNeedsKey(keys: KeyTable, segs: seq<string>)
    requires |segs| >= 1 && |segs[0]| > 0
    requires forall j :: 0 <= j < |segs| ==> '+' !in segs[j] && ModName(segs[j]).Some?
    ensures ParseShortcut(keys, Join(segs)).None?
  {
    ParseJoin(keys, segs);
    KeysInOfModifiers(keys, segs);
  }

  /** Joined segments none of which names a modifier: rejected. */
  lemma ParseJoinNeedsModifier(keys: KeyTable, segs: seq<string>)
    requires |segs| >= 1 && |segs[0]| > 0
    requires forall j :: 0 <= j < |segs| ==> '+' !in segs[j] && ModName(segs[j]).None?
    ensures ParseShortcut(keys, Join(segs)).None?
  {
    ParseJoin(keys, segs);
    ModsInOfNonModifiers(segs);
  }

  /** Modifier names in any order, then one key name. */
  lemma ParseJoinModsThenKey(keys: KeyTable, mods: seq<string>, k: string, m: Modifiers, c: Code)
    requires |mods| >= 1 && |mods[0]| > 0
    requires forall j :: 0 <= j < |mods| ==> '+' !in mods[j] && ModName(mods[j]).Some?
    requires '+' !in k && ModName(k).None? && keys(k) == Some(c)
    requires ModsIn(mods) == Some(m)
    ensures ParseShortcut(keys, Join(mods + [k])) == Some((m, c))
  {
    var segs := mods + [k];
    assert segs[0] == mods[0];
    assert forall j :: 0 <= j < |segs| ==> '+' !in segs[j] && (j < |mods| ==> segs[j] == mods[j]);
    ParseJoin(keys, segs);
    KeysInOfModifiers(keys, mods);
    KeysInSnoc(keys, mods, k);
    ModsInSnoc(mods, k);
  }

  lemma {:induction false} KeysInSnoc(keys: KeyTable, segs: seq<string>, k: string)
    requires IsKeySeg(keys, k)
    ensures KeysIn(keys, segs + [k]) == KeysIn(keys, segs) + [keys(k).value]
    decreases |segs|
  {
    if |segs| > 0 {
      assert (segs + [k])[1..] == segs[1..] + [k];
      KeysInSnoc(keys, segs[1..], k);
    } else {
      assert segs + [k] == [k];
    }
  }

  lemma {:induction false} ModsInSnoc(segs: seq<string>, k: string)
    requires ModName(k).None?
    ensures ModsIn(segs + [k]) == ModsIn(segs)
    decreases |segs|
  {
    if |segs| > 0 {
      assert (segs + [k])[1..] == segs[1..] + [k];
      ModsInSnoc(segs[1..], k);
      match ModName(segs[0])
      case None =>
      case Some(_) =>
    } else {
      assert segs + [k] == [k];
    }
  }

  // ---------------------------------------------------------------------------
  // The unit tests of `shortcut_from_str`

  /** The names the tests use, looked up in the program's table. */
  lemma TestNameF9()
    ensures StrToKey("F9") == Some(F9)
  {
  }

  lemma TestNameHome()
    ensures StrToKey("Home") == Some(Home)
  {
  }

  lemma TestNameDigit3()
    ensures StrToKey("3") == Some(Digit3)
  {
  }

  lemma TestNamesAD()
    ensures StrToKey("A") == Some(KeyA) && StrToKey("D") == Some(KeyD)
  {
  }

  lemma TestNamesUnknown()
    ensures StrToKey("GI").None? && StrToKey("").None?
  {
  }

  /** Texts in the order `shortcut_to_str` writes them. */
  lemma ShortcutFromStrAcceptsCtrlAltF9()
    ensures ShortcutFromStr("Ctrl+Alt+F9") == Some((Union(CONTROL, ALT), F9))
  {
    assert ModText(Union(CONTROL, ALT), "F9") == "Ctrl+Alt+F9";
    TestNameF9();
    ParseModText(StrToKey, Union(CONTROL, ALT), "F9", F9);
  }

  lemma ShortcutFromStrAcceptsAltShiftHome()
    ensures ShortcutFromStr("Alt+Shift+Home") == Some((Union(SHIFT, ALT), Home))
  {
    assert ModText(Union(SHIFT, ALT), "Home") == "Alt+Shift+Home";
    TestNameHome();
    ParseModText(StrToKey, Union(SHIFT, ALT), "Home", Home);
  }

  /** Modifiers may come in any order. */
  lemma ShortcutFromStrAcceptsAnyOrder()
    ensures ShortcutFromStr("Shift+Alt+Ctrl+3") == Some((Union(Union(CONTROL, SHIFT), ALT), Digit3))
  {
    var mods := ["Shift", "Alt", "Ctrl"];
    JoinShiftAltCtrl3();
    ModsInShiftAltCtrl();
    TestNameDigit3();
    ParseJoinModsThenKey(StrToKey, mods, "3", Union(Union(CONTROL, SHIFT), ALT), Digit3);
  }

  /** The segments of the any-order test text. */
  lemma JoinShiftAltCtrl3()
    ensures Join(["Shift", "Alt", "Ctrl"] + ["3"]) == "Shift+Alt+Ctrl+3"
  {
    assert ["Shift", "Alt", "Ctrl"] + ["3"] == ["Shift", "Alt", "Ctrl", "3"];
    assert Join(["Shift", "Alt", "Ctrl", "3"]) == "Shift+Alt+Ctrl+3";
  }

  /** The modifiers of the any-order test text, in the order they appear. */
  lemma ModsInShiftAltCtrl()
    ensures ModsIn(["Shift", "Alt", "Ctrl"]) == Some(Union(Union(CONTROL, SHIFT), ALT))
  {
  }

  /** A stray separator. */
  lemma ShortcutFromStrRejectsStrayPlus()
    ensures ShortcutFromStr("Alt+Shift+").None?
    ensures ShortcutFromStr("+Shift+3").None?
    ensures ShortcutFromStr("Ctrl+Shift+4+").None?
  {
    TestNamesUnknown();
    TrailingPlusRejected(StrToKey, "Alt+Shift+");
    TrailingPlusRejected(StrToKey, "Ctrl+Shift+4+");
    LeadingPlusRejected(StrToKey, "+Shift+3");
  }

  /** An unknown segment. */
  lemma ShortcutFromStrRejectsUnknownName()
    ensures ShortcutFromStr("Ctrl+Shift+GI").None?
  {
    var segs := ["Ctrl", "Shift", "GI"];
    assert Join(segs) == "Ctrl+Shift+GI";
    TestNamesUnknown();
    ParseJoinRejectsAt(StrToKey, segs, 2);
  }

  /** Two keys. */
  lemma ShortcutFromStrRejectsTwoKeys()
    ensures ShortcutFromStr("Ctrl+Shift+A+D").None?
  {
    var segs := ["Ctrl", "Shift", "A", "D"];
    assert Join(segs) == "Ctrl+Shift+A+D";
    TestNamesAD();
    ParseJoinRejectsTwoKeys(StrToKey, segs, 2, 3);
  }

  /** No key. */
  lemma ShortcutFromStrRejectsNoKey()
    ensures ShortcutFromStr("Ctrl+Shift").None?
  {
    var segs := ["Ctrl", "Shift"];
    assert Join(segs) == "Ctrl+Shift";
    ParseJoinNeedsKey(StrToKey, segs);
  }

  /** No modifier. */
  lemma ShortcutFromStrRejectsNoModifier()
    ensures ShortcutFromStr("A").None?
  {
    var segs := ["A"];
    assert Join(segs) == "A";
    ParseJoinNeedsModifier(StrToKey, segs);
  }
}
