/** Keyboard shortcuts: modifier sets, the key-name table and the `Mod+Mod+Key`
    text grammar used in the settings. */
module Keyboard {
  import opened Wrappers

  /** The four modifier flags of `keyboard_types::Modifiers` the program reads or sets. */
  datatype Modifiers = Modifiers(ctrl: bool, alt: bool, shift: bool, meta: bool)

  const CONTROL: Modifiers := Modifiers(true, false, false, false)
  const ALT: Modifiers := Modifiers(false, true, false, false)
  const SHIFT: Modifiers := Modifiers(false, false, true, false)
  const META: Modifiers := Modifiers(false, false, false, true)

  /** `Modifiers::insert` / `|`: flag-wise union. */
  function Union(a: Modifiers, b: Modifiers): Modifiers {
    Modifiers(a.ctrl || b.ctrl, a.alt || b.alt, a.shift || b.shift, a.meta || b.meta)
  }

  predicate IsEmpty(m: Modifiers) {
    !m.ctrl && !m.alt && !m.shift && !m.meta
  }

  /** `keyboard_types::Code`: the 73 codes the program names, and `Other` for every
      other code of that enumeration. */
  datatype Code =
      ArrowDown
    | ArrowLeft
    | ArrowRight
    | ArrowUp
    | Escape
    | Tab
    | Backspace
    | Enter
    | Space
    | Insert
    | Delete
    | Home
    | End
    | PageUp
    | PageDown
    | Minus
    | Equal
    | Digit0
    | Digit1
    | Digit2
    | Digit3
    | Digit4
    | Digit5
    | Digit6
    | Digit7
    | Digit8
    | Digit9
    | KeyA
    | KeyB
    | KeyC
    | KeyD
    | KeyE
    | KeyF
    | KeyG
    | KeyH
    | KeyI
    | KeyJ
    | KeyK
    | KeyL
    | KeyM
    | KeyN
    | KeyO
    | KeyP
    | KeyQ
    | KeyR
    | KeyS
    | KeyT
    | KeyU
    | KeyV
    | KeyW
    | KeyX
    | KeyY
    | KeyZ
    | F1
    | F2
    | F3
    | F4
    | F5
    | F6
    | F7
    | F8
    | F9
    | F10
    | F11
    | F12
    | F13
    | F14
    | F15
    | F16
    | F17
    | F18
    | F19
    | F20
    | Other(tag: nat)

  /** The codes `key_to_str` gives a name to. */
  predicate Named(c: Code) {
    !c.Other?
  }

  /** `modifier_or`: adds `m` to an optional set; the result is never empty-handed. */
  function ModifierOr(modifier: Option<Modifiers>, m: Modifiers): (r: Option<Modifiers>)
    ensures r.Some?
    ensures r.value.ctrl <==> m.ctrl || (modifier.Some? && modifier.value.ctrl)
    ensures r.value.alt <==> m.alt || (modifier.Some? && modifier.value.alt)
    ensures r.value.shift <==> m.shift || (modifier.Some? && modifier.value.shift)
    ensures r.value.meta <==> m.meta || (modifier.Some? && modifier.value.meta)
  {
    match modifier
    case Some(v) => Some(Union(v, m))
    case None => Some(m)
  }

  /** Adding modifiers one after another gives the same set in either order. */
  lemma ModifierOrCommutes(x: Option<Modifiers>, a: Modifiers, b: Modifiers)
    ensures ModifierOr(ModifierOr(x, a), b) == ModifierOr(ModifierOr(x, b), a)
  {
  }

  /** The spelling of the Windows key in shortcut text. */
  const META_STR: string := "Win+"

  /** The modifier a segment of a shortcut text names. The Windows key is matched
      against `META_STR`, which contains the separator itself, so no segment between
      separators ever names it. */
  function ModName(sub: string): Option<Modifiers> {
    match sub
    case "Ctrl" => Some(CONTROL)
    case "Win+" => Some(META)
    case "Alt" => Some(ALT)
    case "Shift" => Some(SHIFT)
    case _ => None
  }

  /** `key_to_str`: the name of a code in shortcut text. No name contains the `+`
      separator, and exactly the codes without a name print as "Unknown". */
  function KeyToStr(key: Code): (r: string)
    ensures '+' !in r
    ensures r == "Unknown" <==> !Named(key)
  {
    match key
    case ArrowDown => "Down"
    case ArrowLeft => "Left"
    case ArrowRight => "Right"
    case ArrowUp => "Up"
    case Escape => "Escape"
    case Tab => "Tab"
    case Backspace => "Backspace"
    case Enter => "Enter"
    case Space => "Space"
    case Insert => "Insert"
    case Delete => "Delete"
    case Home => "Home"
    case End => "End"
    case PageUp => "PageUp"
    case PageDown => "PageDown"
    case Minus => "Minus"
    case Equal => "Plus"
    case Digit0 => "0"
    case Digit1 => "1"
    case Digit2 => "2"
    case Digit3 => "3"
    case Digit4 => "4"
    case Digit5 => "5"
    case Digit6 => "6"
    case Digit7 => "7"
    case Digit8 => "8"
    case Digit9 => "9"
    case KeyA => "A"
    case KeyB => "B"
    case KeyC => "C"
    case KeyD => "D"
    case KeyE => "E"
    case KeyF => "F"
    case KeyG => "G"
    case KeyH => "H"
    case KeyI => "I"
    case KeyJ => "J"
    case KeyK => "K"
    case KeyL => "L"
    case KeyM => "M"
    case KeyN => "N"
    case KeyO => "O"
    case KeyP => "P"
    case KeyQ => "Q"
    case KeyR => "R"
    case KeyS => "S"
    case KeyT => "T"
    case KeyU => "U"
    case KeyV => "V"
    case KeyW => "W"
    case KeyX => "X"
    case KeyY => "Y"
    case KeyZ => "Z"
    case F1 => "F1"
    case F2 => "F2"
    case F3 => "F3"
    case F4 => "F4"
    case F5 => "F5"
    case F6 => "F6"
    case F7 => "F7"
    case F8 => "F8"
    case F9 => "F9"
    case F10 => "F10"
    case F11 => "F11"
    case F12 => "F12"
    case F13 => "F13"
    case F14 => "F14"
    case F15 => "F15"
    case F16 => "F16"
    case F17 => "F17"
    case F18 => "F18"
    case F19 => "F19"
    case F20 => "F20"
    case Other(_) => "Unknown"
  }

  /** `str_to_key`: the code a key name stands for. A recognised name always gives a
      named code; that it is the name `key_to_str` prints for that code is
      `KeyToStrInvertsStrToKey`. */
  function StrToKey(s: string): (r: Option<Code>)
    ensures r.Some? ==> Named(r.value)
  {
    match s
    case "Down" => Some(ArrowDown)
    case "Left" => Some(ArrowLeft)
    case "Right" => Some(ArrowRight)
    case "Up" => Some(ArrowUp)
    case "Escape" => Some(Escape)
    case "Tab" => Some(Tab)
    case "Backspace" => Some(Backspace)
    case "Enter" => Some(Enter)
    case "Space" => Some(Space)
    case "Insert" => Some(Insert)
    case "Delete" => Some(Delete)
    case "Home" => Some(Home)
    case "End" => Some(End)
    case "PageUp" => Some(PageUp)
    case "PageDown" => Some(PageDown)
    case "Minus" => Some(Minus)
    case "Plus" => Some(Equal)
    case "0" => Some(Digit0)
    case "1" => Some(Digit1)
    case "2" => Some(Digit2)
    case "3" => Some(Digit3)
    case "4" => Some(Digit4)
    case "5" => Some(Digit5)
    case "6" => Some(Digit6)
    case "7" => Some(Digit7)
    case "8" => Some(Digit8)
    case "9" => Some(Digit9)
    case "A" => Some(KeyA)
    case "B" => Some(KeyB)
    case "C" => Some(KeyC)
    case "D" => Some(KeyD)
    case "E" => Some(KeyE)
    case "F" => Some(KeyF)
    case "G" => Some(KeyG)
    case "H" => Some(KeyH)
    case "I" => Some(KeyI)
    case "J" => Some(KeyJ)
    case "K" => Some(KeyK)
    case "L" => Some(KeyL)
    case "M" => Some(KeyM)
    case "N" => Some(KeyN)
    case "O" => Some(KeyO)
    case "P" => Some(KeyP)
    case "Q" => Some(KeyQ)
    case "R" => Some(KeyR)
    case "S" => Some(KeyS)
    case "T" => Some(KeyT)
    case "U" => Some(KeyU)
    case "V" => Some(KeyV)
    case "W" => Some(KeyW)
    case "X" => Some(KeyX)
    case "Y" => Some(KeyY)
    case "Z" => Some(KeyZ)
    case "F1" => Some(F1)
    case "F2" => Some(F2)
    case "F3" => Some(F3)
    case "F4" => Some(F4)
    case "F5" => Some(F5)
    case "F6" => Some(F6)
    case "F7" => Some(F7)
    case "F8" => Some(F8)
    case "F9" => Some(F9)
    case "F10" => Some(F10)
    case "F11" => Some(F11)
    case "F12" => Some(F12)
    case "F13" => Some(F13)
    case "F14" => Some(F14)
    case "F15" => Some(F15)
    case "F16" => Some(F16)
    case "F17" => Some(F17)
    case "F18" => Some(F18)
    case "F19" => Some(F19)
    case "F20" => Some(F20)
    case _ => None
  }

  /** What holds of the name of a named code: it reads back as that code, contains
      no separator and is not a modifier name. */
  predicate NameFacts(c: Code) {
    && StrToKey(KeyToStr(c)) == Some(c)
    && '+' !in KeyToStr(c)
    && ModName(KeyToStr(c)).None?
  }

  /** `str_to_key` inverts `key_to_str` on every named code ... */
  lemma StrToKeyInvertsKeyToStr(c: Code)
    ensures Named(c) ==> NameFacts(c)
    ensures !Named(c) <==> KeyToStr(c) == "Unknown"
  {
    KeyNamesPart1(c);
    KeyNamesPart2(c);
    KeyNamesPart3(c);
    KeyNamesPart4(c);
    KeyNamesPart5(c);
    KeyNamesPart6(c);
    KeyNamesPart7(c);
    KeyNamesPart8(c);
  }

  lemma KeyNamesPart1(c: Code)
    ensures (c.ArrowDown? || c.ArrowLeft? || c.ArrowRight? || c.ArrowUp? || c.Escape? || c.Tab? || c.Backspace? || c.Enter? || c.Space?)
            ==> NameFacts(c) && KeyToStr(c) != "Unknown"
  {
    if c.ArrowDown? { KeyNameArrowDown(c); }
    if c.ArrowLeft? { KeyNameArrowLeft(c); }
    if c.ArrowRight? { KeyNameArrowRight(c); }
    if c.ArrowUp? { KeyNameArrowUp(c); }
    if c.Escape? { KeyNameEscape(c); }
    if c.Tab? { KeyNameTab(c); }
    if c.Backspace? { KeyNameBackspace(c); }
    if c.Enter? { KeyNameEnter(c); }
    if c.Space? { KeyNameSpace(c); }
  }

  lemma KeyNamesPart2(c: Code)
    ensures (c.Insert? || c.Delete? || c.Home? || c.End? || c.PageUp? || c.PageDown? || c.Minus? || c.Equal? || c.Digit0?)
            ==> NameFacts(c) && KeyToStr(c) != "Unknown"
  {
    if c.Insert? { KeyNameInsert(c); }
    if c.Delete? { KeyNameDelete(c); }
    if c.Home? { KeyNameHome(c); }
    if c.End? { KeyNameEnd(c); }
    if c.PageUp? { KeyNamePageUp(c); }
    if c.PageDown? { KeyNamePageDown(c); }
    if c.Minus? { KeyNameMinus(c); }
    if c.Equal? { KeyNameEqual(c); }
    if c.Digit0? { KeyNameDigit0(c); }
  }

  lemma KeyNamesPart3(c: Code)
    ensures (c.Digit1? || c.Digit2? || c.Digit3? || c.Digit4? || c.Digit5? || c.Digit6? || c.Digit7? || c.Digit8? || c.Digit9?)
            ==> NameFacts(c) && KeyToStr(c) != "Unknown"
  {
    if c.Digit1? { KeyNameDigit1(c); }
    if c.Digit2? { KeyNameDigit2(c); }
    if c.Digit3? { KeyNameDigit3(c); }
    if c.Digit4? { KeyNameDigit4(c); }
    if c.Digit5? { KeyNameDigit5(c); }
    if c.Digit6? { KeyNameDigit6(c); }
    if c.Digit7? { KeyNameDigit7(c); }
    if c.Digit8? { KeyNameDigit8(c); }
    if c.Digit9? { KeyNameDigit9(c); }
  }

  lemma KeyNamesPart4(c: Code)
    ensures (c.KeyA? || c.KeyB? || c.KeyC? || c.KeyD? || c.KeyE? || c.KeyF? || c.KeyG? || c.KeyH? || c.KeyI?)
            ==> NameFacts(c) && KeyToStr(c) != "Unknown"
  {
    if c.KeyA? { KeyNameKeyA(c); }
    if c.KeyB? { KeyNameKeyB(c); }
    if c.KeyC? { KeyNameKeyC(c); }
    if c.KeyD? { KeyNameKeyD(c); }
    if c.KeyE? { KeyNameKeyE(c); }
    if c.KeyF? { KeyNameKeyF(c); }
    if c.KeyG? { KeyNameKeyG(c); }
    if c.KeyH? { KeyNameKeyH(c); }
    if c.KeyI? { KeyNameKeyI(c); }
  }

  lemma KeyNamesPart5(c: Code)
    ensures (c.KeyJ? || c.KeyK? || c.KeyL? || c.KeyM? || c.KeyN? || c.KeyO? || c.KeyP? || c.KeyQ? || c.KeyR?)
            ==> NameFacts(c) && KeyToStr(c) != "Unknown"
  {
    if c.KeyJ? { KeyNameKeyJ(c); }
    if c.KeyK? { KeyNameKeyK(c); }
    if c.KeyL? { KeyNameKeyL(c); }
    if c.KeyM? { KeyNameKeyM(c); }
    if c.KeyN? { KeyNameKeyN(c); }
    if c.KeyO? { KeyNameKeyO(c); }
    if c.KeyP? { KeyNameKeyP(c); }
    if c.KeyQ? { KeyNameKeyQ(c); }
    if c.KeyR? { KeyNameKeyR(c); }
  }

  lemma KeyNamesPart6(c: Code)
    ensures (c.KeyS? || c.KeyT? || c.KeyU? || c.KeyV? || c.KeyW? || c.KeyX? || c.KeyY? || c.KeyZ? || c.F1?)
            ==> NameFacts(c) && KeyToStr(c) != "Unknown"
  {
    if c.KeyS? { KeyNameKeyS(c); }
    if c.KeyT? { KeyNameKeyT(c); }
    if c.KeyU? { KeyNameKeyU(c); }
    if c.KeyV? { KeyNameKeyV(c); }
    if c.KeyW? { KeyNameKeyW(c); }
    if c.KeyX? { KeyNameKeyX(c); }
    if c.KeyY? { KeyNameKeyY(c); }
    if c.KeyZ? { KeyNameKeyZ(c); }
    if c.F1? { KeyNameF1(c); }
  }

  lemma KeyNamesPart7(c: Code)
    ensures (c.F2? || c.F3? || c.F4? || c.F5? || c.F6? || c.F7? || c.F8? || c.F9? || c.F10?)
            ==> NameFacts(c) && KeyToStr(c) != "Unknown"
  {
    if c.F2? { KeyNameF2(c); }
    if c.F3? { KeyNameF3(c); }
    if c.F4? { KeyNameF4(c); }
    if c.F5? { KeyNameF5(c); }
    if c.F6? { KeyNameF6(c); }
    if c.F7? { KeyNameF7(c); }
    if c.F8? { KeyNameF8(c); }
    if c.F9? { KeyNameF9(c); }
    if c.F10? { KeyNameF10(c); }
  }

  lemma KeyNamesPart8(c: Code)
    ensures (c.F11? || c.F12? || c.F13? || c.F14? || c.F15? || c.F16? || c.F17? || c.F18? || c.F19? || c.F20?)
            ==> NameFacts(c) && KeyToStr(c) != "Unknown"
  {
    if c.F11? { KeyNameF11(c); }
    if c.F12? { KeyNameF12(c); }
    if c.F13? { KeyNameF13(c); }
    if c.F14? { KeyNameF14(c); }
    if c.F15? { KeyNameF15(c); }
    if c.F16? { KeyNameF16(c); }
    if c.F17? { KeyNameF17(c); }
    if c.F18? { KeyNameF18(c); }
    if c.F19? { KeyNameF19(c); }
    if c.F20? { KeyNameF20(c); }
  }

  // One fact per named code, so that each string lookup is checked on its own.
  lemma KeyNameArrowDown(c: Code)
    requires c == ArrowDown
    ensures NameFacts(c) && KeyToStr(c) != "Unknown"
  {
  }
  lemma KeyReadArrowDown(s: string)
    ensures StrToKey(s) == Some(ArrowDown) ==> s == "Down"
  {
  }
  lemma KeyNameArrowLeft(c: Code)
    requires c == ArrowLeft
    ensures NameFacts(c) && KeyToStr(c) != "Unknown"
  {
  }
  lemma KeyReadArrowLeft(s: string)
    ensures StrToKey(s) == Some(ArrowLeft) ==> s == "Left"
  {
  }
  lemma KeyNameArrowRight(c: Code)
    requires c == ArrowRight
    ensures NameFacts(c) && KeyToStr(c) != "Unknown"
  {
  }
  lemma KeyReadArrowRight(s: string)
    ensures StrToKey(s) == Some(ArrowRight) ==> s == "Right"
  {
  }
  lemma KeyNameArrowUp(c: Code)
    requires c == ArrowUp
    ensures NameFacts(c) && KeyToStr(c) != "Unknown"
  {
  }
  lemma KeyReadArrowUp(s: string)
    ensures StrToKey(s) == Some(ArrowUp) ==> s == "Up"
  {
  }
  lemma KeyNameEscape(c: Code)
    requires c == Escape
    ensures NameFacts(c) && KeyToStr(c) != "Unknown"
  {
  }
  lemma KeyReadEscape(s: string)
    ensures StrToKey(s) == Some(Escape) ==> s == "Escape"
  {
  }
  lemma KeyNameTab(c: Code)
    requires c == Tab
    ensures NameFacts(c) && KeyToStr(c) != "Unknown"
  {
  }
  lemma KeyReadTab(s: string)
    ensures StrToKey(s) == Some(Tab) ==> s == "Tab"
  {
  }
  lemma KeyNameBackspace(c: Code)
    requires c == Backspace
    ensures NameFacts(c) && KeyToStr(c) != "Unknown"
  {
  }
  lemma KeyReadBackspace(s: string)
    ensures StrToKey(s) == Some(Backspace) ==> s == "Backspace"
  {
  }
  lemma KeyNameEnter(c: Code)
    requires c == Enter
    ensures NameFacts(c) && KeyToStr(c) != "Unknown"
  {
  }
  lemma KeyReadEnter(s: string)
    ensures StrToKey(s) == Some(Enter) ==> s == "Enter"
  {
  }
  lemma KeyNameSpace(c: Code)
    requires c == Space
    ensures NameFacts(c) && KeyToStr(c) != "Unknown"
  {
  }
  lemma KeyReadSpace(s: string)
    ensures StrToKey(s) == Some(Space) ==> s == "Space"
  {
  }
  lemma KeyNameInsert(c: Code)
    requires c == Insert
    ensures NameFacts(c) && KeyToStr(c) != "Unknown"
  {
  }
  lemma KeyReadInsert(s: string)
    ensures StrToKey(s) == Some(Insert) ==> s == "Insert"
  {
  }
  lemma KeyNameDelete(c: Code)
    requires c == Delete
    ensures NameFacts(c) && KeyToStr(c) != "Unknown"
  {
  }
  lemma KeyReadDelete(s: string)
    ensures StrToKey(s) == Some(Delete) ==> s == "Delete"
  {
  }
  lemma KeyNameHome(c: Code)
    requires c == Home
    ensures NameFacts(c) && KeyToStr(c) != "Unknown"
  {
  }
  lemma KeyReadHome(s: string)
    ensures StrToKey(s) == Some(Home) ==> s == "Home"
  {
  }
  lemma KeyNameEnd(c: Code)
    requires c == End
    ensures NameFacts(c) && KeyToStr(c) != "Unknown"
  {
  }
  lemma KeyReadEnd(s: string)
    ensures StrToKey(s) == Some(End) ==> s == "End"
  {
  }
  lemma KeyNamePageUp(c: Code)
    requires c == PageUp
    ensures NameFacts(c) && KeyToStr(c) != "Unknown"
  {
  }
  lemma KeyReadPageUp(s: string)
    ensures StrToKey(s) == Some(PageUp) ==> s == "PageUp"
  {
  }
  lemma KeyNamePageDown(c: Code)
    requires c == PageDown
    ensures NameFacts(c) && KeyToStr(c) != "Unknown"
  {
  }
  lemma KeyReadPageDown(s: string)
    ensures StrToKey(s) == Some(PageDown) ==> s == "PageDown"
  {
  }
  lemma KeyNameMinus(c: Code)
    requires c == Minus
    ensures NameFacts(c) && KeyToStr(c) != "Unknown"
  {
  }
  lemma KeyReadMinus(s: string)
    ensures StrToKey(s) == Some(Minus) ==> s == "Minus"
  {
  }
  lemma KeyNameEqual(c: Code)
    requires c == Equal
    ensures NameFacts(c) && KeyToStr(c) != "Unknown"
  {
  }
  lemma KeyReadEqual(s: string)
    ensures StrToKey(s) == Some(Equal) ==> s == "Plus"
  {
  }
  lemma KeyNameDigit0(c: Code)
    requires c == Digit0
    ensures NameFacts(c) && KeyToStr(c) != "Unknown"
  {
  }
  lemma KeyReadDigit0(s: string)
    ensures StrToKey(s) == Some(Digit0) ==> s == "0"
  {
  }
  lemma KeyNameDigit1(c: Code)
    requires c == Digit1
    ensures NameFacts(c) && KeyToStr(c) != "Unknown"
  {
  }
  lemma KeyReadDigit1(s: string)
    ensures StrToKey(s) == Some(Digit1) ==> s == "1"
  {
  }
  lemma KeyNameDigit2(c: Code)
    requires c == Digit2
    ensures NameFacts(c) && KeyToStr(c) != "Unknown"
  {
  }
  lemma KeyReadDigit2(s: string)
    ensures StrToKey(s) == Some(Digit2) ==> s == "2"
  {
  }
  lemma KeyNameDigit3(c: Code)
    requires c == Digit3
    ensures NameFacts(c) && KeyToStr(c) != "Unknown"
  {
  }
  lemma KeyReadDigit3(s: string)
    ensures StrToKey(s) == Some(Digit3) ==> s == "3"
  {
  }
  lemma KeyNameDigit4(c: Code)
    requires c == Digit4
    ensures NameFacts(c) && KeyToStr(c) != "Unknown"
  {
  }
  lemma KeyReadDigit4(s: string)
    ensures StrToKey(s) == Some(Digit4) ==> s == "4"
  {
  }
  lemma KeyNameDigit5(c: Code)
    requires c == Digit5
    ensures NameFacts(c) && KeyToStr(c) != "Unknown"
  {
  }
  lemma KeyReadDigit5(s: string)
    ensures StrToKey(s) == Some(Digit5) ==> s == "5"
  {
  }
  lemma KeyNameDigit6(c: Code)
    requires c == Digit6
    ensures NameFacts(c) && KeyToStr(c) != "Unknown"
  {
  }
  lemma KeyReadDigit6(s: string)
    ensures StrToKey(s) == Some(Digit6) ==> s == "6"
  {
  }
  lemma KeyNameDigit7(c: Code)
    requires c == Digit7
    ensures NameFacts(c) && KeyToStr(c) != "Unknown"
  {
  }
  lemma KeyReadDigit7(s: string)
    ensures StrToKey(s) == Some(Digit7) ==> s == "7"
  {
  }
  lemma KeyNameDigit8(c: Code)
    requires c == Digit8
    ensures NameFacts(c) && KeyToStr(c) != "Unknown"
  {
  }
  lemma KeyReadDigit8(s: string)
    ensures StrToKey(s) == Some(Digit8) ==> s == "8"
  {
  }
  lemma KeyNameDigit9(c: Code)
    requires c == Digit9
    ensures NameFacts(c) && KeyToStr(c) != "Unknown"
  {
  }
  lemma KeyReadDigit9(s: string)
    ensures StrToKey(s) == Some(Digit9) ==> s == "9"
  {
  }
  lemma KeyNameKeyA(c: Code)
    requires c == KeyA
    ensures NameFacts(c) && KeyToStr(c) != "Unknown"
  {
  }
  lemma KeyReadKeyA(s: string)
    ensures StrToKey(s) == Some(KeyA) ==> s == "A"
  {
  }
  lemma KeyNameKeyB(c: Code)
    requires c == KeyB
    ensures NameFacts(c) && KeyToStr(c) != "Unknown"
  {
  }
  lemma KeyReadKeyB(s: string)
    ensures StrToKey(s) == Some(KeyB) ==> s == "B"
  {
  }
  lemma KeyNameKeyC(c: Code)
    requires c == KeyC
    ensures NameFacts(c) && KeyToStr(c) != "Unknown"
  {
  }
  lemma KeyReadKeyC(s: string)
    ensures StrToKey(s) == Some(KeyC) ==> s == "C"
  {
  }
  lemma KeyNameKeyD(c: Code)
    requires c == KeyD
    ensures NameFacts(c) && KeyToStr(c) != "Unknown"
  {
  }
  lemma KeyReadKeyD(s: string)
    ensures StrToKey(s) == Some(KeyD) ==> s == "D"
  {
  }
  lemma KeyNameKeyE(c: Code)
    requires c == KeyE
    ensures NameFacts(c) && KeyToStr(c) != "Unknown"
  {
  }
  lemma KeyReadKeyE(s: string)
    ensures StrToKey(s) == Some(KeyE) ==> s == "E"
  {
  }
  lemma KeyNameKeyF(c: Code)
    requires c == KeyF
    ensures NameFacts(c) && KeyToStr(c) != "Unknown"
  {
  }
  lemma KeyReadKeyF(s: string)
    ensures StrToKey(s) == Some(KeyF) ==> s == "F"
  {
  }
  lemma KeyNameKeyG(c: Code)
    requires c == KeyG
    ensures NameFacts(c) && KeyToStr(c) != "Unknown"
  {
  }
  lemma KeyReadKeyG(s: string)
    ensures StrToKey(s) == Some(KeyG) ==> s == "G"
  {
  }
  lemma KeyNameKeyH(c: Code)
    requires c == KeyH
    ensures NameFacts(c) && KeyToStr(c) != "Unknown"
  {
  }
  lemma KeyReadKeyH(s: string)
    ensures StrToKey(s) == Some(KeyH) ==> s == "H"
  {
  }
  lemma KeyNameKeyI(c: Code)
    requires c == KeyI
    ensures NameFacts(c) && KeyToStr(c) != "Unknown"
  {
  }
  lemma KeyReadKeyI(s: string)
    ensures StrToKey(s) == Some(KeyI) ==> s == "I"
  {
  }
  lemma KeyNameKeyJ(c: Code)
    requires c == KeyJ
    ensures NameFacts(c) && KeyToStr(c) != "Unknown"
  {
  }
  lemma KeyReadKeyJ(s: string)
    ensures StrToKey(s) == Some(KeyJ) ==> s == "J"
  {
  }
  lemma KeyNameKeyK(c: Code)
    requires c == KeyK
    ensures NameFacts(c) && KeyToStr(c) != "Unknown"
  {
  }
  lemma KeyReadKeyK(s: string)
    ensures StrToKey(s) == Some(KeyK) ==> s == "K"
  {
  }
  lemma KeyNameKeyL(c: Code)
    requires c == KeyL
    ensures NameFacts(c) && KeyToStr(c) != "Unknown"
  {
  }
  lemma KeyReadKeyL(s: string)
    ensures StrToKey(s) == Some(KeyL) ==> s == "L"
  {
  }
  lemma KeyNameKeyM(c: Code)
    requires c == KeyM
    ensures NameFacts(c) && KeyToStr(c) != "Unknown"
  {
  }
  lemma KeyReadKeyM(s: string)
    ensures StrToKey(s) == Some(KeyM) ==> s == "M"
  {
  }
  lemma KeyNameKeyN(c: Code)
    requires c == KeyN
    ensures NameFacts(c) && KeyToStr(c) != "Unknown"
  {
  }
  lemma KeyReadKeyN(s: string)
    ensures StrToKey(s) == Some(KeyN) ==> s == "N"
  {
  }
  lemma KeyNameKeyO(c: Code)
    requires c == KeyO
    ensures NameFacts(c) && KeyToStr(c) != "Unknown"
  {
  }
  lemma KeyReadKeyO(s: string)
    ensures StrToKey(s) == Some(KeyO) ==> s == "O"
  {
  }
  lemma KeyNameKeyP(c: Code)
    requires c == KeyP
    ensures NameFacts(c) && KeyToStr(c) != "Unknown"
  {
  }
  lemma KeyReadKeyP(s: string)
    ensures StrToKey(s) == Some(KeyP) ==> s == "P"
  {
  }
  lemma KeyNameKeyQ(c: Code)
    requires c == KeyQ
    ensures NameFacts(c) && KeyToStr(c) != "Unknown"
  {
  }
  lemma KeyReadKeyQ(s: string)
    ensures StrToKey(s) == Some(KeyQ) ==> s == "Q"
  {
  }
  lemma KeyNameKeyR(c: Code)
    requires c == KeyR
    ensures NameFacts(c) && KeyToStr(c) != "Unknown"
  {
  }
  lemma KeyReadKeyR(s: string)
    ensures StrToKey(s) == Some(KeyR) ==> s == "R"
  {
  }
  lemma KeyNameKeyS(c: Code)
    requires c == KeyS
    ensures NameFacts(c) && KeyToStr(c) != "Unknown"
  {
  }
  lemma KeyReadKeyS(s: string)
    ensures StrToKey(s) == Some(KeyS) ==> s == "S"
  {
  }
  lemma KeyNameKeyT(c: Code)
    requires c == KeyT
    ensures NameFacts(c) && KeyToStr(c) != "Unknown"
  {
  }
  lemma KeyReadKeyT(s: string)
    ensures StrToKey(s) == Some(KeyT) ==> s == "T"
  {
  }
  lemma KeyNameKeyU(c: Code)
    requires c == KeyU
    ensures NameFacts(c) && KeyToStr(c) != "Unknown"
  {
  }
  lemma KeyReadKeyU(s: string)
    ensures StrToKey(s) == Some(KeyU) ==> s == "U"
  {
  }
  lemma KeyNameKeyV(c: Code)
    requires c == KeyV
    ensures NameFacts(c) && KeyToStr(c) != "Unknown"
  {
  }
  lemma KeyReadKeyV(s: string)
    ensures StrToKey(s) == Some(KeyV) ==> s == "V"
  {
  }
  lemma KeyNameKeyW(c: Code)
    requires c == KeyW
    ensures NameFacts(c) && KeyToStr(c) != "Unknown"
  {
  }
  lemma KeyReadKeyW(s: string)
    ensures StrToKey(s) == Some(KeyW) ==> s == "W"
  {
  }
  lemma KeyNameKeyX(c: Code)
    requires c == KeyX
    ensures NameFacts(c) && KeyToStr(c) != "Unknown"
  {
  }
  lemma KeyReadKeyX(s: string)
    ensures StrToKey(s) == Some(KeyX) ==> s == "X"
  {
  }
  lemma KeyNameKeyY(c: Code)
    requires c == KeyY
    ensures NameFacts(c) && KeyToStr(c) != "Unknown"
  {
  }
  lemma KeyReadKeyY(s: string)
    ensures StrToKey(s) == Some(KeyY) ==> s == "Y"
  {
  }
  lemma KeyNameKeyZ(c: Code)
    requires c == KeyZ
    ensures NameFacts(c) && KeyToStr(c) != "Unknown"
  {
  }
  lemma KeyReadKeyZ(s: string)
    ensures StrToKey(s) == Some(KeyZ) ==> s == "Z"
  {
  }
  lemma KeyNameF1(c: Code)
    requires c == F1
    ensures NameFacts(c) && KeyToStr(c) != "Unknown"
  {
  }
  lemma KeyReadF1(s: string)
    ensures StrToKey(s) == Some(F1) ==> s == "F1"
  {
  }
  lemma KeyNameF2(c: Code)
    requires c == F2
    ensures NameFacts(c) && KeyToStr(c) != "Unknown"
  {
  }
  lemma KeyReadF2(s: string)
    ensures StrToKey(s) == Some(F2) ==> s == "F2"
  {
  }
  lemma KeyNameF3(c: Code)
    requires c == F3
    ensures NameFacts(c) && KeyToStr(c) != "Unknown"
  {
  }
  lemma KeyReadF3(s: string)
    ensures StrToKey(s) == Some(F3) ==> s == "F3"
  {
  }
  lemma KeyNameF4(c: Code)
    requires c == F4
    ensures NameFacts(c) && KeyToStr(c) != "Unknown"
  {
  }
  lemma KeyReadF4(s: string)
    ensures StrToKey(s) == Some(F4) ==> s == "F4"
  {
  }
  lemma KeyNameF5(c: Code)
    requires c == F5
    ensures NameFacts(c) && KeyToStr(c) != "Unknown"
  {
  }
  lemma KeyReadF5(s: string)
    ensures StrToKey(s) == Some(F5) ==> s == "F5"
  {
  }
  lemma KeyNameF6(c: Code)
    requires c == F6
    ensures NameFacts(c) && KeyToStr(c) != "Unknown"
  {
  }
  lemma KeyReadF6(s: string)
    ensures StrToKey(s) == Some(F6) ==> s == "F6"
  {
  }
  lemma KeyNameF7(c: Code)
    requires c == F7
    ensures NameFacts(c) && KeyToStr(c) != "Unknown"
  {
  }
  lemma KeyReadF7(s: string)
    ensures StrToKey(s) == Some(F7) ==> s == "F7"
  {
  }
  lemma KeyNameF8(c: Code)
    requires c == F8
    ensures NameFacts(c) && KeyToStr(c) != "Unknown"
  {
  }
  lemma KeyReadF8(s: string)
    ensures StrToKey(s) == Some(F8) ==> s == "F8"
  {
  }
  lemma KeyNameF9(c: Code)
    requires c == F9
    ensures NameFacts(c) && KeyToStr(c) != "Unknown"
  {
  }
  lemma KeyReadF9(s: string)
    ensures StrToKey(s) == Some(F9) ==> s == "F9"
  {
  }
  lemma KeyNameF10(c: Code)
    requires c == F10
    ensures NameFacts(c) && KeyToStr(c) != "Unknown"
  {
  }
  lemma KeyReadF10(s: string)
    ensures StrToKey(s) == Some(F10) ==> s == "F10"
  {
  }
  lemma KeyNameF11(c: Code)
    requires c == F11
    ensures NameFacts(c) && KeyToStr(c) != "Unknown"
  {
  }
  lemma KeyReadF11(s: string)
    ensures StrToKey(s) == Some(F11) ==> s == "F11"
  {
  }
  lemma KeyNameF12(c: Code)
    requires c == F12
    ensures NameFacts(c) && KeyToStr(c) != "Unknown"
  {
  }
  lemma KeyReadF12(s: string)
    ensures StrToKey(s) == Some(F12) ==> s == "F12"
  {
  }
  lemma KeyNameF13(c: Code)
    requires c == F13
    ensures NameFacts(c) && KeyToStr(c) != "Unknown"
  {
  }
  lemma KeyReadF13(s: string)
    ensures StrToKey(s) == Some(F13) ==> s == "F13"
  {
  }
  lemma KeyNameF14(c: Code)
    requires c == F14
    ensures NameFacts(c) && KeyToStr(c) != "Unknown"
  {
  }
  lemma KeyReadF14(s: string)
    ensures StrToKey(s) == Some(F14) ==> s == "F14"
  {
  }
  lemma KeyNameF15(c: Code)
    requires c == F15
    ensures NameFacts(c) && KeyToStr(c) != "Unknown"
  {
  }
  lemma KeyReadF15(s: string)
    ensures StrToKey(s) == Some(F15) ==> s == "F15"
  {
  }
  lemma KeyNameF16(c: Code)
    requires c == F16
    ensures NameFacts(c) && KeyToStr(c) != "Unknown"
  {
  }
  lemma KeyReadF16(s: string)
    ensures StrToKey(s) == Some(F16) ==> s == "F16"
  {
  }
  lemma KeyNameF17(c: Code)
    requires c == F17
    ensures NameFacts(c) && KeyToStr(c) != "Unknown"
  {
  }
  lemma KeyReadF17(s: string)
    ensures StrToKey(s) == Some(F17) ==> s == "F17"
  {
  }
  lemma KeyNameF18(c: Code)
    requires c == F18
    ensures NameFacts(c) && KeyToStr(c) != "Unknown"
  {
  }
  lemma KeyReadF18(s: string)
    ensures StrToKey(s) == Some(F18) ==> s == "F18"
  {
  }
  lemma KeyNameF19(c: Code)
    requires c == F19
    ensures NameFacts(c) && KeyToStr(c) != "Unknown"
  {
  }
  lemma KeyReadF19(s: string)
    ensures StrToKey(s) == Some(F19) ==> s == "F19"
  {
  }
  lemma KeyNameF20(c: Code)
    requires c == F20
    ensures NameFacts(c) && KeyToStr(c) != "Unknown"
  {
  }
  lemma KeyReadF20(s: string)
    ensures StrToKey(s) == Some(F20) ==> s == "F20"
  {
  }

  /** ... and `key_to_str` inverts `str_to_key` on every name it accepts; "Unknown" is
      not one of them. */
  lemma KeyToStrInvertsStrToKey(s: string)
    ensures StrToKey(s).Some? ==> Named(StrToKey(s).value) && KeyToStr(StrToKey(s).value) == s
    ensures StrToKey("Unknown").None?
  {
    match StrToKey(s)
    case None =>
    case Some(c) =>
      match c
      case ArrowDown => KeyReadArrowDown(s);
      case ArrowLeft => KeyReadArrowLeft(s);
      case ArrowRight => KeyReadArrowRight(s);
      case ArrowUp => KeyReadArrowUp(s);
      case Escape => KeyReadEscape(s);
      case Tab => KeyReadTab(s);
      case Backspace => KeyReadBackspace(s);
      case Enter => KeyReadEnter(s);
      case Space => KeyReadSpace(s);
      case Insert => KeyReadInsert(s);
      case Delete => KeyReadDelete(s);
      case Home => KeyReadHome(s);
      case End => KeyReadEnd(s);
      case PageUp => KeyReadPageUp(s);
      case PageDown => KeyReadPageDown(s);
      case Minus => KeyReadMinus(s);
      case Equal => KeyReadEqual(s);
      case Digit0 => KeyReadDigit0(s);
      case Digit1 => KeyReadDigit1(s);
      case Digit2 => KeyReadDigit2(s);
      case Digit3 => KeyReadDigit3(s);
      case Digit4 => KeyReadDigit4(s);
      case Digit5 => KeyReadDigit5(s);
      case Digit6 => KeyReadDigit6(s);
      case Digit7 => KeyReadDigit7(s);
      case Digit8 => KeyReadDigit8(s);
      case Digit9 => KeyReadDigit9(s);
      case KeyA => KeyReadKeyA(s);
      case KeyB => KeyReadKeyB(s);
      case KeyC => KeyReadKeyC(s);
      case KeyD => KeyReadKeyD(s);
      case KeyE => KeyReadKeyE(s);
      case KeyF => KeyReadKeyF(s);
      case KeyG => KeyReadKeyG(s);
      case KeyH => KeyReadKeyH(s);
      case KeyI => KeyReadKeyI(s);
      case KeyJ => KeyReadKeyJ(s);
      case KeyK => KeyReadKeyK(s);
      case KeyL => KeyReadKeyL(s);
      case KeyM => KeyReadKeyM(s);
      case KeyN => KeyReadKeyN(s);
      case KeyO => KeyReadKeyO(s);
      case KeyP => KeyReadKeyP(s);
      case KeyQ => KeyReadKeyQ(s);
      case KeyR => KeyReadKeyR(s);
      case KeyS => KeyReadKeyS(s);
      case KeyT => KeyReadKeyT(s);
      case KeyU => KeyReadKeyU(s);
      case KeyV => KeyReadKeyV(s);
      case KeyW => KeyReadKeyW(s);
      case KeyX => KeyReadKeyX(s);
      case KeyY => KeyReadKeyY(s);
      case KeyZ => KeyReadKeyZ(s);
      case F1 => KeyReadF1(s);
      case F2 => KeyReadF2(s);
      case F3 => KeyReadF3(s);
      case F4 => KeyReadF4(s);
      case F5 => KeyReadF5(s);
      case F6 => KeyReadF6(s);
      case F7 => KeyReadF7(s);
      case F8 => KeyReadF8(s);
      case F9 => KeyReadF9(s);
      case F10 => KeyReadF10(s);
      case F11 => KeyReadF11(s);
      case F12 => KeyReadF12(s);
      case F13 => KeyReadF13(s);
      case F14 => KeyReadF14(s);
      case F15 => KeyReadF15(s);
      case F16 => KeyReadF16(s);
      case F17 => KeyReadF17(s);
      case F18 => KeyReadF18(s);
      case F19 => KeyReadF19(s);
      case F20 => KeyReadF20(s);
      case Other(_) =>
  }

  /** Distinct named codes have distinct names. */
  lemma KeyToStrInjective(c1: Code, c2: Code)
    requires Named(c1) && Named(c2) && KeyToStr(c1) == KeyToStr(c2)
    ensures c1 == c2
  {
    StrToKeyInvertsKeyToStr(c1);
    StrToKeyInvertsKeyToStr(c2);
  }

  // ---------------------------------------------------------------------------
  // Serialising

  /** Emits the modifiers in the fixed order Ctrl, Win, Alt, Shift, each followed by
      `+`, then the key name. */
  function ShortcutToStr(m: Modifiers, code: Option<Code>): (r: string)
    ensures |KeyText(code)| <= |r| && r[|r| - |KeyText(code)|..] == KeyText(code)
    ensures '+' in r <==> m.ctrl || m.meta || m.alt || m.shift
  {
    var prefix := Opt(m.ctrl, "Ctrl+") + Opt(m.meta, META_STR) + Opt(m.alt, "Alt+") + Opt(m.shift, "Shift+");
    assert (prefix + KeyText(code))[|prefix|..] == KeyText(code);
    prefix + KeyText(code)
  }

  /** `s` when `b` holds, else nothing. */
  function Opt(b: bool, s: string): string {
    if b then s else ""
  }

  function KeyText(code: Option<Code>): string {
    match code
    case Some(c) => KeyToStr(c)
    case None => ""
  }

  lemma ShortcutToStrExamples()
    ensures ShortcutToStr(Union(CONTROL, ALT), Some(F9)) == "Ctrl+Alt+F9"
    ensures ShortcutToStr(Union(SHIFT, ALT), Some(Home)) == "Alt+Shift+Home"
    ensures ShortcutToStr(Union(SHIFT, ALT), None) == "Alt+Shift+"
  {
    assert KeyToStr(F9) == "F9" && KeyToStr(Home) == "Home";
    assert "Ctrl+" + "" + "Alt+" + "" + "F9" == "Ctrl+Alt+F9";
    assert "" + "" + "Alt+" + "Shift+" + "Home" == "Alt+Shift+Home";
    assert "" + "" + "Alt+" + "Shift+" + "" == "Alt+Shift+";
  }
}
