/** The Windows side of shortcuts: `RegisterHotKey` modifier bits and virtual-key codes. */
module KeyWindows {
  import opened Wrappers
  import opened Ints
  import opened Keyboard
  import opened ShortcutText

  // `HOT_KEY_MODIFIERS` bits of the Win32 API.
  const MOD_ALT: u32 := 0x0001
  const MOD_CONTROL: u32 := 0x0002
  const MOD_SHIFT: u32 := 0x0004
  const MOD_WIN: u32 := 0x0008
  const MOD_NOREPEAT: u32 := 0x4000

  function BitOr(a: u32, b: u32): u32 {
    ((a as bv32) | (b as bv32)) as u32
  }

  predicate HasBit(r: u32, bit: u32) {
    (r as bv32) & (bit as bv32) != 0
  }

  /** `modifier_to_win`: ORs in one bit per modifier flag. */
  function ModifierToWin(m: Modifiers): (r: u32)
    ensures HasBit(r, MOD_CONTROL) <==> m.ctrl
    ensures HasBit(r, MOD_ALT) <==> m.alt
    ensures HasBit(r, MOD_SHIFT) <==> m.shift
    ensures HasBit(r, MOD_WIN) <==> m.meta
    ensures r < 0x10 && !HasBit(r, MOD_NOREPEAT)
    ensures r == 0 <==> IsEmpty(m)
  {
    var r0 := 0;
    var r1 := if m.ctrl then BitOr(r0, MOD_CONTROL) else r0;
    var r2 := if m.alt then BitOr(r1, MOD_ALT) else r1;
    var r3 := if m.shift then BitOr(r2, MOD_SHIFT) else r2;
    if m.meta then BitOr(r3, MOD_WIN) else r3
  }

  /** Reading the flags back from the bits. */
  function WinToModifier(r: u32): Modifiers {
    Modifiers(HasBit(r, MOD_CONTROL), HasBit(r, MOD_ALT), HasBit(r, MOD_SHIFT), HasBit(r, MOD_WIN))
  }

  /** The bits determine the modifier set: `modifier_to_win` loses nothing. */
  lemma ModifierToWinInjective(m1: Modifiers, m2: Modifiers)
    requires ModifierToWin(m1) == ModifierToWin(m2)
    ensures m1 == m2
  {
    assert WinToModifier(ModifierToWin(m1)) == m1;
  }

  /** `key_to_win`: the virtual-key code of each named code, `None` for all others.
      Virtual keys are non-zero and fit in a byte. */
  function KeyToWin(key: Code): (r: Option<u16>)
    ensures r.Some? <==> Named(key)
    ensures r.Some? ==> 0 < r.value < 0x100
  {
    match key
    case ArrowDown => Some(0x28) // VK_DOWN
    case ArrowLeft => Some(0x25) // VK_LEFT
    case ArrowRight => Some(0x27) // VK_RIGHT
    case ArrowUp => Some(0x26) // VK_UP
    case Escape => Some(0x1B) // VK_ESCAPE
    case Tab => Some(0x09) // VK_TAB
    case Backspace => Some(0x08) // VK_BACK
    case Enter => Some(0x0D) // VK_RETURN
    case Space => Some(0x20) // VK_SPACE
    case Insert => Some(0x2D) // VK_INSERT
    case Delete => Some(0x2E) // VK_DELETE
    case Home => Some(0x24) // VK_HOME
    case End => Some(0x23) // VK_END
    case PageUp => Some(0x21) // VK_PRIOR
    case PageDown => Some(0x22) // VK_NEXT
    case Minus => Some(0xBD) // VK_OEM_MINUS
    case Equal => Some(0xBB) // VK_OEM_PLUS
    case Digit0 => Some(0x30) // VK_0
    case Digit1 => Some(0x31) // VK_1
    case Digit2 => Some(0x32) // VK_2
    case Digit3 => Some(0x33) // VK_3
    case Digit4 => Some(0x34) // VK_4
    case Digit5 => Some(0x35) // VK_5
    case Digit6 => Some(0x36) // VK_6
    case Digit7 => Some(0x37) // VK_7
    case Digit8 => Some(0x38) // VK_8
    case Digit9 => Some(0x39) // VK_9
    case KeyA => Some(0x41) // VK_A
    case KeyB => Some(0x42) // VK_B
    case KeyC => Some(0x43) // VK_C
    case KeyD => Some(0x44) // VK_D
    case KeyE => Some(0x45) // VK_E
    case KeyF => Some(0x46) // VK_F
    case KeyG => Some(0x47) // VK_G
    case KeyH => Some(0x48) // VK_H
    case KeyI => Some(0x49) // VK_I
    case KeyJ => Some(0x4A) // VK_J
    case KeyK => Some(0x4B) // VK_K
    case KeyL => Some(0x4C) // VK_L
    case KeyM => Some(0x4D) // VK_M
    case KeyN => Some(0x4E) // VK_N
    case KeyO => Some(0x4F) // VK_O
    case KeyP => Some(0x50) // VK_P
    case KeyQ => Some(0x51) // VK_Q
    case KeyR => Some(0x52) // VK_R
    case KeyS => Some(0x53) // VK_S
    case KeyT => Some(0x54) // VK_T
    case KeyU => Some(0x55) // VK_U
    case KeyV => Some(0x56) // VK_V
    case KeyW => Some(0x57) // VK_W
    case KeyX => Some(0x58) // VK_X
    case KeyY => Some(0x59) // VK_Y
    case KeyZ => Some(0x5A) // VK_Z
    case F1 => Some(0x70) // VK_F1
    case F2 => Some(0x71) // VK_F2
    case F3 => Some(0x72) // VK_F3
    case F4 => Some(0x73) // VK_F4
    case F5 => Some(0x74) // VK_F5
    case F6 => Some(0x75) // VK_F6
    case F7 => Some(0x76) // VK_F7
    case F8 => Some(0x77) // VK_F8
    case F9 => Some(0x78) // VK_F9
    case F10 => Some(0x79) // VK_F10
    case F11 => Some(0x7A) // VK_F11
    case F12 => Some(0x7B) // VK_F12
    case F13 => Some(0x7C) // VK_F13
    case F14 => Some(0x7D) // VK_F14
    case F15 => Some(0x7E) // VK_F15
    case F16 => Some(0x7F) // VK_F16
    case F17 => Some(0x80) // VK_F17
    case F18 => Some(0x81) // VK_F18
    case F19 => Some(0x82) // VK_F19
    case F20 => Some(0x83) // VK_F20
    case Other(_) => None
  }

  /** The inverse table, from virtual-key code to code. */
  function WinToKey(v: u16): Option<Code> {
    match v
    case 0x28 => Some(ArrowDown)
    case 0x25 => Some(ArrowLeft)
    case 0x27 => Some(ArrowRight)
    case 0x26 => Some(ArrowUp)
    case 0x1B => Some(Escape)
    case 0x09 => Some(Tab)
    case 0x08 => Some(Backspace)
    case 0x0D => Some(Enter)
    case 0x20 => Some(Space)
    case 0x2D => Some(Insert)
    case 0x2E => Some(Delete)
    case 0x24 => Some(Home)
    case 0x23 => Some(End)
    case 0x21 => Some(PageUp)
    case 0x22 => Some(PageDown)
    case 0xBD => Some(Minus)
    case 0xBB => Some(Equal)
    case 0x30 => Some(Digit0)
    case 0x31 => Some(Digit1)
    case 0x32 => Some(Digit2)
    case 0x33 => Some(Digit3)
    case 0x34 => Some(Digit4)
    case 0x35 => Some(Digit5)
    case 0x36 => Some(Digit6)
    case 0x37 => Some(Digit7)
    case 0x38 => Some(Digit8)
    case 0x39 => Some(Digit9)
    case 0x41 => Some(KeyA)
    case 0x42 => Some(KeyB)
    case 0x43 => Some(KeyC)
    case 0x44 => Some(KeyD)
    case 0x45 => Some(KeyE)
    case 0x46 => Some(KeyF)
    case 0x47 => Some(KeyG)
    case 0x48 => Some(KeyH)
    case 0x49 => Some(KeyI)
    case 0x4A => Some(KeyJ)
    case 0x4B => Some(KeyK)
    case 0x4C => Some(KeyL)
    case 0x4D => Some(KeyM)
    case 0x4E => Some(KeyN)
    case 0x4F => Some(KeyO)
    case 0x50 => Some(KeyP)
    case 0x51 => Some(KeyQ)
    case 0x52 => Some(KeyR)
    case 0x53 => Some(KeyS)
    case 0x54 => Some(KeyT)
    case 0x55 => Some(KeyU)
    case 0x56 => Some(KeyV)
    case 0x57 => Some(KeyW)
    case 0x58 => Some(KeyX)
    case 0x59 => Some(KeyY)
    case 0x5A => Some(KeyZ)
    case 0x70 => Some(F1)
    case 0x71 => Some(F2)
    case 0x72 => Some(F3)
    case 0x73 => Some(F4)
    case 0x74 => Some(F5)
    case 0x75 => Some(F6)
    case 0x76 => Some(F7)
    case 0x77 => Some(F8)
    case 0x78 => Some(F9)
    case 0x79 => Some(F10)
    case 0x7A => Some(F11)
    case 0x7B => Some(F12)
    case 0x7C => Some(F13)
    case 0x7D => Some(F14)
    case 0x7E => Some(F15)
    case 0x7F => Some(F16)
    case 0x80 => Some(F17)
    case 0x81 => Some(F18)
    case 0x82 => Some(F19)
    case 0x83 => Some(F20)
    case _ => None
  }

  predicate VkFacts(c: Code) {
    KeyToWin(c).Some? && WinToKey(KeyToWin(c).value) == Some(c)
  }

  /** `key_to_win` is defined exactly on the codes `key_to_str` names, and the inverse
      table undoes it. */
  lemma KeyToWinSpec(c: Code)
    ensures KeyToWin(c).Some? <==> Named(c)
    ensures KeyToWin(c).Some? <==> KeyToStr(c) != "Unknown"
    ensures Named(c) ==> WinToKey(KeyToWin(c).value) == Some(c)
  {
    VkPart1(c);
    VkPart2(c);
    VkPart3(c);
    VkPart4(c);
    VkPart5(c);
    VkPart6(c);
    VkPart7(c);
    VkPart8(c);
    StrToKeyInvertsKeyToStr(c);
  }

  /** Distinct codes have distinct virtual keys. */
  lemma KeyToWinInjective(c1: Code, c2: Code)
    requires KeyToWin(c1).Some? && KeyToWin(c1) == KeyToWin(c2)
    ensures c1 == c2
  {
    KeyToWinSpec(c1);
    KeyToWinSpec(c2);
  }

  /** ... and the inverse table holds nothing else: whatever it maps a virtual key to,
      `key_to_win` maps back. */
  lemma WinToKeyInvertsKeyToWin(v: u16)
    ensures WinToKey(v).Some? ==> KeyToWin(WinToKey(v).value) == Some(v)
  {
    match WinToKey(v)
    case None =>
    case Some(c) =>
      KeyToWinSpec(c);
      match c
    case ArrowDown => VkReadArrowDown(v);
    case ArrowLeft => VkReadArrowLeft(v);
    case ArrowRight => VkReadArrowRight(v);
    case ArrowUp => VkReadArrowUp(v);
    case Escape => VkReadEscape(v);
    case Tab => VkReadTab(v);
    case Backspace => VkReadBackspace(v);
    case Enter => VkReadEnter(v);
    case Space => VkReadSpace(v);
    case Insert => VkReadInsert(v);
    case Delete => VkReadDelete(v);
    case Home => VkReadHome(v);
    case End => VkReadEnd(v);
    case PageUp => VkReadPageUp(v);
    case PageDown => VkReadPageDown(v);
    case Minus => VkReadMinus(v);
    case Equal => VkReadEqual(v);
    case Digit0 => VkReadDigit0(v);
    case Digit1 => VkReadDigit1(v);
    case Digit2 => VkReadDigit2(v);
    case Digit3 => VkReadDigit3(v);
    case Digit4 => VkReadDigit4(v);
    case Digit5 => VkReadDigit5(v);
    case Digit6 => VkReadDigit6(v);
    case Digit7 => VkReadDigit7(v);
    case Digit8 => VkReadDigit8(v);
    case Digit9 => VkReadDigit9(v);
    case KeyA => VkReadKeyA(v);
    case KeyB => VkReadKeyB(v);
    case KeyC => VkReadKeyC(v);
    case KeyD => VkReadKeyD(v);
    case KeyE => VkReadKeyE(v);
    case KeyF => VkReadKeyF(v);
    case KeyG => VkReadKeyG(v);
    case KeyH => VkReadKeyH(v);
    case KeyI => VkReadKeyI(v);
    case KeyJ => VkReadKeyJ(v);
    case KeyK => VkReadKeyK(v);
    case KeyL => VkReadKeyL(v);
    case KeyM => VkReadKeyM(v);
    case KeyN => VkReadKeyN(v);
    case KeyO => VkReadKeyO(v);
    case KeyP => VkReadKeyP(v);
    case KeyQ => VkReadKeyQ(v);
    case KeyR => VkReadKeyR(v);
    case KeyS => VkReadKeyS(v);
    case KeyT => VkReadKeyT(v);
    case KeyU => VkReadKeyU(v);
    case KeyV => VkReadKeyV(v);
    case KeyW => VkReadKeyW(v);
    case KeyX => VkReadKeyX(v);
    case KeyY => VkReadKeyY(v);
    case KeyZ => VkReadKeyZ(v);
    case F1 => VkReadF1(v);
    case F2 => VkReadF2(v);
    case F3 => VkReadF3(v);
    case F4 => VkReadF4(v);
    case F5 => VkReadF5(v);
    case F6 => VkReadF6(v);
    case F7 => VkReadF7(v);
    case F8 => VkReadF8(v);
    case F9 => VkReadF9(v);
    case F10 => VkReadF10(v);
    case F11 => VkReadF11(v);
    case F12 => VkReadF12(v);
    case F13 => VkReadF13(v);
    case F14 => VkReadF14(v);
    case F15 => VkReadF15(v);
    case F16 => VkReadF16(v);
    case F17 => VkReadF17(v);
    case F18 => VkReadF18(v);
    case F19 => VkReadF19(v);
    case F20 => VkReadF20(v);
      case Other(_) =>
  }

  lemma VkPart1(c: Code)
    ensures (c.ArrowDown? || c.ArrowLeft? || c.ArrowRight? || c.ArrowUp? || c.Escape? || c.Tab? || c.Backspace? || c.Enter? || c.Space?)
            ==> VkFacts(c)
  {
    if c.ArrowDown? { VkArrowDown(c); }
    if c.ArrowLeft? { VkArrowLeft(c); }
    if c.ArrowRight? { VkArrowRight(c); }
    if c.ArrowUp? { VkArrowUp(c); }
    if c.Escape? { VkEscape(c); }
    if c.Tab? { VkTab(c); }
    if c.Backspace? { VkBackspace(c); }
    if c.Enter? { VkEnter(c); }
    if c.Space? { VkSpace(c); }
  }

  lemma VkPart2(c: Code)
    ensures (c.Insert? || c.Delete? || c.Home? || c.End? || c.PageUp? || c.PageDown? || c.Minus? || c.Equal? || c.Digit0?)
            ==> VkFacts(c)
  {
    if c.Insert? { VkInsert(c); }
    if c.Delete? { VkDelete(c); }
    if c.Home? { VkHome(c); }
    if c.End? { VkEnd(c); }
    if c.PageUp? { VkPageUp(c); }
    if c.PageDown? { VkPageDown(c); }
    if c.Minus? { VkMinus(c); }
    if c.Equal? { VkEqual(c); }
    if c.Digit0? { VkDigit0(c); }
  }

  lemma VkPart3(c: Code)
    ensures (c.Digit1? || c.Digit2? || c.Digit3? || c.Digit4? || c.Digit5? || c.Digit6? || c.Digit7? || c.Digit8? || c.Digit9?)
            ==> VkFacts(c)
  {
    if c.Digit1? { VkDigit1(c); }
    if c.Digit2? { VkDigit2(c); }
    if c.Digit3? { VkDigit3(c); }
    if c.Digit4? { VkDigit4(c); }
    if c.Digit5? { VkDigit5(c); }
    if c.Digit6? { VkDigit6(c); }
    if c.Digit7? { VkDigit7(c); }
    if c.Digit8? { VkDigit8(c); }
    if c.Digit9? { VkDigit9(c); }
  }

  lemma VkPart4(c: Code)
    ensures (c.KeyA? || c.KeyB? || c.KeyC? || c.KeyD? || c.KeyE? || c.KeyF? || c.KeyG? || c.KeyH? || c.KeyI?)
            ==> VkFacts(c)
  {
    if c.KeyA? { VkKeyA(c); }
    if c.KeyB? { VkKeyB(c); }
    if c.KeyC? { VkKeyC(c); }
    if c.KeyD? { VkKeyD(c); }
    if c.KeyE? { VkKeyE(c); }
    if c.KeyF? { VkKeyF(c); }
    if c.KeyG? { VkKeyG(c); }
    if c.KeyH? { VkKeyH(c); }
    if c.KeyI? { VkKeyI(c); }
  }

  lemma VkPart5(c: Code)
    ensures (c.KeyJ? || c.KeyK? || c.KeyL? || c.KeyM? || c.KeyN? || c.KeyO? || c.KeyP? || c.KeyQ? || c.KeyR?)
            ==> VkFacts(c)
  {
    if c.KeyJ? { VkKeyJ(c); }
    if c.KeyK? { VkKeyK(c); }
    if c.KeyL? { VkKeyL(c); }
    if c.KeyM? { VkKeyM(c); }
    if c.KeyN? { VkKeyN(c); }
    if c.KeyO? { VkKeyO(c); }
    if c.KeyP? { VkKeyP(c); }
    if c.KeyQ? { VkKeyQ(c); }
    if c.KeyR? { VkKeyR(c); }
  }

  lemma VkPart6(c: Code)
    ensures (c.KeyS? || c.KeyT? || c.KeyU? || c.KeyV? || c.KeyW? || c.KeyX? || c.KeyY? || c.KeyZ? || c.F1?)
            ==> VkFacts(c)
  {
    if c.KeyS? { VkKeyS(c); }
    if c.KeyT? { VkKeyT(c); }
    if c.KeyU? { VkKeyU(c); }
    if c.KeyV? { VkKeyV(c); }
    if c.KeyW? { VkKeyW(c); }
    if c.KeyX? { VkKeyX(c); }
    if c.KeyY? { VkKeyY(c); }
    if c.KeyZ? { VkKeyZ(c); }
    if c.F1? { VkF1(c); }
  }

  lemma VkPart7(c: Code)
    ensures (c.F2? || c.F3? || c.F4? || c.F5? || c.F6? || c.F7? || c.F8? || c.F9? || c.F10?)
            ==> VkFacts(c)
  {
    if c.F2? { VkF2(c); }
    if c.F3? { VkF3(c); }
    if c.F4? { VkF4(c); }
    if c.F5? { VkF5(c); }
    if c.F6? { VkF6(c); }
    if c.F7? { VkF7(c); }
    if c.F8? { VkF8(c); }
    if c.F9? { VkF9(c); }
    if c.F10? { VkF10(c); }
  }

  lemma VkPart8(c: Code)
    ensures (c.F11? || c.F12? || c.F13? || c.F14? || c.F15? || c.F16? || c.F17? || c.F18? || c.F19? || c.F20?)
            ==> VkFacts(c)
  {
    if c.F11? { VkF11(c); }
    if c.F12? { VkF12(c); }
    if c.F13? { VkF13(c); }
    if c.F14? { VkF14(c); }
    if c.F15? { VkF15(c); }
    if c.F16? { VkF16(c); }
    if c.F17? { VkF17(c); }
    if c.F18? { VkF18(c); }
    if c.F19? { VkF19(c); }
    if c.F20? { VkF20(c); }
  }

  lemma VkArrowDown(c: Code)
    requires c == ArrowDown
    ensures VkFacts(c)
  {
  }

  lemma VkArrowLeft(c: Code)
    requires c == ArrowLeft
    ensures VkFacts(c)
  {
  }

  lemma VkArrowRight(c: Code)
    requires c == ArrowRight
    ensures VkFacts(c)
  {
  }

  lemma VkArrowUp(c: Code)
    requires c == ArrowUp
    ensures VkFacts(c)
  {
  }

  lemma VkEscape(c: Code)
    requires c == Escape
    ensures VkFacts(c)
  {
  }

  lemma VkTab(c: Code)
    requires c == Tab
    ensures VkFacts(c)
  {
  }

  lemma VkBackspace(c: Code)
    requires c == Backspace
    ensures VkFacts(c)
  {
  }

  lemma VkEnter(c: Code)
    requires c == Enter
    ensures VkFacts(c)
  {
  }

  lemma VkSpace(c: Code)
    requires c == Space
    ensures VkFacts(c)
  {
  }

  lemma VkInsert(c: Code)
    requires c == Insert
    ensures VkFacts(c)
  {
  }

  lemma VkDelete(c: Code)
    requires c == Delete
    ensures VkFacts(c)
  {
  }

  lemma VkHome(c: Code)
    requires c == Home
    ensures VkFacts(c)
  {
  }

  lemma VkEnd(c: Code)
    requires c == End
    ensures VkFacts(c)
  {
  }

  lemma VkPageUp(c: Code)
    requires c == PageUp
    ensures VkFacts(c)
  {
  }

  lemma VkPageDown(c: Code)
    requires c == PageDown
    ensures VkFacts(c)
  {
  }

  lemma VkMinus(c: Code)
    requires c == Minus
    ensures VkFacts(c)
  {
  }

  lemma VkEqual(c: Code)
    requires c == Equal
    ensures VkFacts(c)
  {
  }

  lemma VkDigit0(c: Code)
    requires c == Digit0
    ensures VkFacts(c)
  {
  }

  lemma VkDigit1(c: Code)
    requires c == Digit1
    ensures VkFacts(c)
  {
  }

  lemma VkDigit2(c: Code)
    requires c == Digit2
    ensures VkFacts(c)
  {
  }

  lemma VkDigit3(c: Code)
    requires c == Digit3
    ensures VkFacts(c)
  {
  }

  lemma VkDigit4(c: Code)
    requires c == Digit4
    ensures VkFacts(c)
  {
  }

  lemma VkDigit5(c: Code)
    requires c == Digit5
    ensures VkFacts(c)
  {
  }

  lemma VkDigit6(c: Code)
    requires c == Digit6
    ensures VkFacts(c)
  {
  }

  lemma VkDigit7(c: Code)
    requires c == Digit7
    ensures VkFacts(c)
  {
  }

  lemma VkDigit8(c: Code)
    requires c == Digit8
    ensures VkFacts(c)
  {
  }

  lemma VkDigit9(c: Code)
    requires c == Digit9
    ensures VkFacts(c)
  {
  }

  lemma VkKeyA(c: Code)
    requires c == KeyA
    ensures VkFacts(c)
  {
  }

  lemma VkKeyB(c: Code)
    requires c == KeyB
    ensures VkFacts(c)
  {
  }

  lemma VkKeyC(c: Code)
    requires c == KeyC
    ensures VkFacts(c)
  {
  }

  lemma VkKeyD(c: Code)
    requires c == KeyD
    ensures VkFacts(c)
  {
  }

  lemma VkKeyE(c: Code)
    requires c == KeyE
    ensures VkFacts(c)
  {
  }

  lemma VkKeyF(c: Code)
    requires c == KeyF
    ensures VkFacts(c)
  {
  }

  lemma VkKeyG(c: Code)
    requires c == KeyG
    ensures VkFacts(c)
  {
  }

  lemma VkKeyH(c: Code)
    requires c == KeyH
    ensures VkFacts(c)
  {
  }

  lemma VkKeyI(c: Code)
    requires c == KeyI
    ensures VkFacts(c)
  {
  }

  lemma VkKeyJ(c: Code)
    requires c == KeyJ
    ensures VkFacts(c)
  {
  }

  lemma VkKeyK(c: Code)
    requires c == KeyK
    ensures VkFacts(c)
  {
  }

  lemma VkKeyL(c: Code)
    requires c == KeyL
    ensures VkFacts(c)
  {
  }

  lemma VkKeyM(c: Code)
    requires c == KeyM
    ensures VkFacts(c)
  {
  }

  lemma VkKeyN(c: Code)
    requires c == KeyN
    ensures VkFacts(c)
  {
  }

  lemma VkKeyO(c: Code)
    requires c == KeyO
    ensures VkFacts(c)
  {
  }

  lemma VkKeyP(c: Code)
    requires c == KeyP
    ensures VkFacts(c)
  {
  }

  lemma VkKeyQ(c: Code)
    requires c == KeyQ
    ensures VkFacts(c)
  {
  }

  lemma VkKeyR(c: Code)
    requires c == KeyR
    ensures VkFacts(c)
  {
  }

  lemma VkKeyS(c: Code)
    requires c == KeyS
    ensures VkFacts(c)
  {
  }

  lemma VkKeyT(c: Code)
    requires c == KeyT
    ensures VkFacts(c)
  {
  }

  lemma VkKeyU(c: Code)
    requires c == KeyU
    ensures VkFacts(c)
  {
  }

  lemma VkKeyV(c: Code)
    requires c == KeyV
    ensures VkFacts(c)
  {
  }

  lemma VkKeyW(c: Code)
    requires c == KeyW
    ensures VkFacts(c)
  {
  }

  lemma VkKeyX(c: Code)
    requires c == KeyX
    ensures VkFacts(c)
  {
  }

  lemma VkKeyY(c: Code)
    requires c == KeyY
    ensures VkFacts(c)
  {
  }

  lemma VkKeyZ(c: Code)
    requires c == KeyZ
    ensures VkFacts(c)
  {
  }

  lemma VkF1(c: Code)
    requires c == F1
    ensures VkFacts(c)
  {
  }

  lemma VkF2(c: Code)
    requires c == F2
    ensures VkFacts(c)
  {
  }

  lemma VkF3(c: Code)
    requires c == F3
    ensures VkFacts(c)
  {
  }

  lemma VkF4(c: Code)
    requires c == F4
    ensures VkFacts(c)
  {
  }

  lemma VkF5(c: Code)
    requires c == F5
    ensures VkFacts(c)
  {
  }

  lemma VkF6(c: Code)
    requires c == F6
    ensures VkFacts(c)
  {
  }

  lemma VkF7(c: Code)
    requires c == F7
    ensures VkFacts(c)
  {
  }

  lemma VkF8(c: Code)
    requires c == F8
    ensures VkFacts(c)
  {
  }

  lemma VkF9(c: Code)
    requires c == F9
    ensures VkFacts(c)
  {
  }

  lemma VkF10(c: Code)
    requires c == F10
    ensures VkFacts(c)
  {
  }

  lemma VkF11(c: Code)
    requires c == F11
    ensures VkFacts(c)
  {
  }

  lemma VkF12(c: Code)
    requires c == F12
    ensures VkFacts(c)
  {
  }

  lemma VkF13(c: Code)
    requires c == F13
    ensures VkFacts(c)
  {
  }

  lemma VkF14(c: Code)
    requires c == F14
    ensures VkFacts(c)
  {
  }

  lemma VkF15(c: Code)
    requires c == F15
    ensures VkFacts(c)
  {
  }

  lemma VkF16(c: Code)
    requires c == F16
    ensures VkFacts(c)
  {
  }

  lemma VkF17(c: Code)
    requires c == F17
    ensures VkFacts(c)
  {
  }

  lemma VkF18(c: Code)
    requires c == F18
    ensures VkFacts(c)
  {
  }

  lemma VkF19(c: Code)
    requires c == F19
    ensures VkFacts(c)
  {
  }

  lemma VkF20(c: Code)
    requires c == F20
    ensures VkFacts(c)
  {
  }

  lemma VkReadArrowDown(v: u16)
    ensures WinToKey(v) == Some(ArrowDown) ==> v == 0x28
  {
  }

  lemma VkReadArrowLeft(v: u16)
    ensures WinToKey(v) == Some(ArrowLeft) ==> v == 0x25
  {
  }

  lemma VkReadArrowRight(v: u16)
    ensures WinToKey(v) == Some(ArrowRight) ==> v == 0x27
  {
  }

  lemma VkReadArrowUp(v: u16)
    ensures WinToKey(v) == Some(ArrowUp) ==> v == 0x26
  {
  }

  lemma VkReadEscape(v: u16)
    ensures WinToKey(v) == Some(Escape) ==> v == 0x1B
  {
  }

  lemma VkReadTab(v: u16)
    ensures WinToKey(v) == Some(Tab) ==> v == 0x09
  {
  }

  lemma VkReadBackspace(v: u16)
    ensures WinToKey(v) == Some(Backspace) ==> v == 0x08
  {
  }

  lemma VkReadEnter(v: u16)
    ensures WinToKey(v) == Some(Enter) ==> v == 0x0D
  {
  }

  lemma VkReadSpace(v: u16)
    ensures WinToKey(v) == Some(Space) ==> v == 0x20
  {
  }

  lemma VkReadInsert(v: u16)
    ensures WinToKey(v) == Some(Insert) ==> v == 0x2D
  {
  }

  lemma VkReadDelete(v: u16)
    ensures WinToKey(v) == Some(Delete) ==> v == 0x2E
  {
  }

  lemma VkReadHome(v: u16)
    ensures WinToKey(v) == Some(Home) ==> v == 0x24
  {
  }

  lemma VkReadEnd(v: u16)
    ensures WinToKey(v) == Some(End) ==> v == 0x23
  {
  }

  lemma VkReadPageUp(v: u16)
    ensures WinToKey(v) == Some(PageUp) ==> v == 0x21
  {
  }

  lemma VkReadPageDown(v: u16)
    ensures WinToKey(v) == Some(PageDown) ==> v == 0x22
  {
  }

  lemma VkReadMinus(v: u16)
    ensures WinToKey(v) == Some(Minus) ==> v == 0xBD
  {
  }

  lemma VkReadEqual(v: u16)
    ensures WinToKey(v) == Some(Equal) ==> v == 0xBB
  {
  }

  lemma VkReadDigit0(v: u16)
    ensures WinToKey(v) == Some(Digit0) ==> v == 0x30
  {
  }

  lemma VkReadDigit1(v: u16)
    ensures WinToKey(v) == Some(Digit1) ==> v == 0x31
  {
  }

  lemma VkReadDigit2(v: u16)
    ensures WinToKey(v) == Some(Digit2) ==> v == 0x32
  {
  }

  lemma VkReadDigit3(v: u16)
    ensures WinToKey(v) == Some(Digit3) ==> v == 0x33
  {
  }

  lemma VkReadDigit4(v: u16)
    ensures WinToKey(v) == Some(Digit4) ==> v == 0x34
  {
  }

  lemma VkReadDigit5(v: u16)
    ensures WinToKey(v) == Some(Digit5) ==> v == 0x35
  {
  }

  lemma VkReadDigit6(v: u16)
    ensures WinToKey(v) == Some(Digit6) ==> v == 0x36
  {
  }

  lemma VkReadDigit7(v: u16)
    ensures WinToKey(v) == Some(Digit7) ==> v == 0x37
  {
  }

  lemma VkReadDigit8(v: u16)
    ensures WinToKey(v) == Some(Digit8) ==> v == 0x38
  {
  }

  lemma VkReadDigit9(v: u16)
    ensures WinToKey(v) == Some(Digit9) ==> v == 0x39
  {
  }

  lemma VkReadKeyA(v: u16)
    ensures WinToKey(v) == Some(KeyA) ==> v == 0x41
  {
  }

  lemma VkReadKeyB(v: u16)
    ensures WinToKey(v) == Some(KeyB) ==> v == 0x42
  {
  }

  lemma VkReadKeyC(v: u16)
    ensures WinToKey(v) == Some(KeyC) ==> v == 0x43
  {
  }

  lemma VkReadKeyD(v: u16)
    ensures WinToKey(v) == Some(KeyD) ==> v == 0x44
  {
  }

  lemma VkReadKeyE(v: u16)
    ensures WinToKey(v) == Some(KeyE) ==> v == 0x45
  {
  }

  lemma VkReadKeyF(v: u16)
    ensures WinToKey(v) == Some(KeyF) ==> v == 0x46
  {
  }

  lemma VkReadKeyG(v: u16)
    ensures WinToKey(v) == Some(KeyG) ==> v == 0x47
  {
  }

  lemma VkReadKeyH(v: u16)
    ensures WinToKey(v) == Some(KeyH) ==> v == 0x48
  {
  }

  lemma VkReadKeyI(v: u16)
    ensures WinToKey(v) == Some(KeyI) ==> v == 0x49
  {
  }

  lemma VkReadKeyJ(v: u16)
    ensures WinToKey(v) == Some(KeyJ) ==> v == 0x4A
  {
  }

  lemma VkReadKeyK(v: u16)
    ensures WinToKey(v) == Some(KeyK) ==> v == 0x4B
  {
  }

  lemma VkReadKeyL(v: u16)
    ensures WinToKey(v) == Some(KeyL) ==> v == 0x4C
  {
  }

  lemma VkReadKeyM(v: u16)
    ensures WinToKey(v) == Some(KeyM) ==> v == 0x4D
  {
  }

  lemma VkReadKeyN(v: u16)
    ensures WinToKey(v) == Some(KeyN) ==> v == 0x4E
  {
  }

  lemma VkReadKeyO(v: u16)
    ensures WinToKey(v) == Some(KeyO) ==> v == 0x4F
  {
  }

  lemma VkReadKeyP(v: u16)
    ensures WinToKey(v) == Some(KeyP) ==> v == 0x50
  {
  }

  lemma VkReadKeyQ(v: u16)
    ensures WinToKey(v) == Some(KeyQ) ==> v == 0x51
  {
  }

  lemma VkReadKeyR(v: u16)
    ensures WinToKey(v) == Some(KeyR) ==> v == 0x52
  {
  }

  lemma VkReadKeyS(v: u16)
    ensures WinToKey(v) == Some(KeyS) ==> v == 0x53
  {
  }

  lemma VkReadKeyT(v: u16)
    ensures WinToKey(v) == Some(KeyT) ==> v == 0x54
  {
  }

  lemma VkReadKeyU(v: u16)
    ensures WinToKey(v) == Some(KeyU) ==> v == 0x55
  {
  }

  lemma VkReadKeyV(v: u16)
    ensures WinToKey(v) == Some(KeyV) ==> v == 0x56
  {
  }

  lemma VkReadKeyW(v: u16)
    ensures WinToKey(v) == Some(KeyW) ==> v == 0x57
  {
  }

  lemma VkReadKeyX(v: u16)
    ensures WinToKey(v) == Some(KeyX) ==> v == 0x58
  {
  }

  lemma VkReadKeyY(v: u16)
    ensures WinToKey(v) == Some(KeyY) ==> v == 0x59
  {
  }

  lemma VkReadKeyZ(v: u16)
    ensures WinToKey(v) == Some(KeyZ) ==> v == 0x5A
  {
  }

  lemma VkReadF1(v: u16)
    ensures WinToKey(v) == Some(F1) ==> v == 0x70
  {
  }

  lemma VkReadF2(v: u16)
    ensures WinToKey(v) == Some(F2) ==> v == 0x71
  {
  }

  lemma VkReadF3(v: u16)
    ensures WinToKey(v) == Some(F3) ==> v == 0x72
  {
  }

  lemma VkReadF4(v: u16)
    ensures WinToKey(v) == Some(F4) ==> v == 0x73
  {
  }

  lemma VkReadF5(v: u16)
    ensures WinToKey(v) == Some(F5) ==> v == 0x74
  {
  }

  lemma VkReadF6(v: u16)
    ensures WinToKey(v) == Some(F6) ==> v == 0x75
  {
  }

  lemma VkReadF7(v: u16)
    ensures WinToKey(v) == Some(F7) ==> v == 0x76
  {
  }

  lemma VkReadF8(v: u16)
    ensures WinToKey(v) == Some(F8) ==> v == 0x77
  {
  }

  lemma VkReadF9(v: u16)
    ensures WinToKey(v) == Some(F9) ==> v == 0x78
  {
  }

  lemma VkReadF10(v: u16)
    ensures WinToKey(v) == Some(F10) ==> v == 0x79
  {
  }

  lemma VkReadF11(v: u16)
    ensures WinToKey(v) == Some(F11) ==> v == 0x7A
  {
  }

  lemma VkReadF12(v: u16)
    ensures WinToKey(v) == Some(F12) ==> v == 0x7B
  {
  }

  lemma VkReadF13(v: u16)
    ensures WinToKey(v) == Some(F13) ==> v == 0x7C
  {
  }

  lemma VkReadF14(v: u16)
    ensures WinToKey(v) == Some(F14) ==> v == 0x7D
  {
  }

  lemma VkReadF15(v: u16)
    ensures WinToKey(v) == Some(F15) ==> v == 0x7E
  {
  }

  lemma VkReadF16(v: u16)
    ensures WinToKey(v) == Some(F16) ==> v == 0x7F
  {
  }

  lemma VkReadF17(v: u16)
    ensures WinToKey(v) == Some(F17) ==> v == 0x80
  {
  }

  lemma VkReadF18(v: u16)
    ensures WinToKey(v) == Some(F18) ==> v == 0x81
  {
  }

  lemma VkReadF19(v: u16)
    ensures WinToKey(v) == Some(F19) ==> v == 0x82
  {
  }

  lemma VkReadF20(v: u16)
    ensures WinToKey(v) == Some(F20) ==> v == 0x83
  {
  }

  /** `shortcut_str_to_win`: parse the text, then translate both parts. Since every
      parsed key has a virtual key, it fails exactly when the parse does; it never
      sets `MOD_NOREPEAT` itself. */
  function ShortcutStrToWin(s: string): (r: Option<(u32, u16)>)
    ensures r.None? <==> ShortcutFromStr(s).None?
    ensures r.Some? ==> r.value.0 < 0x10 && 0 < r.value.1 < 0x100
  {
    match ShortcutFromStr(s)
    case None => None
    case Some((m, code)) =>
      match KeyToWin(code)
      case None => None
      case Some(v) => Some((ModifierToWin(m), v))
  }

  /** It fails exactly when the parse fails, since every key the parser returns has a
      virtual key; otherwise it carries the parsed set and key. */
  lemma ShortcutStrToWinSpec(s: string)
    ensures ShortcutStrToWin(s).None? <==> ShortcutFromStr(s).None?
    ensures ShortcutStrToWin(s).Some? ==>
              var (m, c) := ShortcutFromStr(s).value;
              WinToModifier(ShortcutStrToWin(s).value.0) == m
              && WinToKey(ShortcutStrToWin(s).value.1) == Some(c)
  {
    if ShortcutFromStr(s).Some? {
      KeyToWinSpec(ShortcutFromStr(s).value.1);
    }
  }

  /** A shortcut the settings write (no Windows key, some modifier, a named key) is
      registered with exactly its own bits and key. */
  lemma ShortcutStrToWinRoundTrip(m: Modifiers, c: Code)
    requires !m.meta && !IsEmpty(m) && Named(c)
    ensures ShortcutStrToWin(ShortcutToStr(m, Some(c))).Some?
    ensures WinToModifier(ShortcutStrToWin(ShortcutToStr(m, Some(c))).value.0) == m
    ensures WinToKey(ShortcutStrToWin(ShortcutToStr(m, Some(c))).value.1) == Some(c)
  {
    ShortcutRoundTrip(m, c);
    KeyToWinSpec(c);
  }
}
