/** The egui side of shortcuts: the UI's modifier flags and key enumeration, translated
    to the program's own modifier sets and codes. */
module KeyEgui {
  import opened Wrappers
  import Keyboard

  /** `egui::Modifiers`: `command` is the platform's command key, `mac_cmd` the Mac one. */
  datatype EguiModifiers = EguiModifiers(alt: bool, ctrl: bool, shift: bool, macCmd: bool, command: bool)

  /** `EGUI_COMMAND` on Windows (and Linux): the command key is Control. */
  const EGUI_COMMAND: Keyboard.Modifiers := Keyboard.CONTROL

  /** `egui_to_modifier`: folds each pressed flag into an optional set. */
  function EguiToModifier(m: EguiModifiers): (r: Option<Keyboard.Modifiers>)
    ensures r.None? <==> !m.ctrl && !m.shift && !m.alt && !m.macCmd && !m.command
    ensures r.Some? ==> (r.value.ctrl <==> m.ctrl || m.command)
    ensures r.Some? ==> (r.value.shift <==> m.shift)
    ensures r.Some? ==> (r.value.alt <==> m.alt)
    ensures r.Some? ==> (r.value.meta <==> m.macCmd)
  {
    var r0: Option<Keyboard.Modifiers> := None;
    var r1 := if m.ctrl then Keyboard.ModifierOr(r0, Keyboard.CONTROL) else r0;
    var r2 := if m.shift then Keyboard.ModifierOr(r1, Keyboard.SHIFT) else r1;
    var r3 := if m.alt then Keyboard.ModifierOr(r2, Keyboard.ALT) else r2;
    var r4 := if m.macCmd then Keyboard.ModifierOr(r3, Keyboard.META) else r3;
    if m.command then Keyboard.ModifierOr(r4, EGUI_COMMAND) else r4
  }

  /** `egui::Key`, the keys the program translates. */
  datatype EguiKey =
      ArrowDown
    | ArrowLeft
    | ArrowRight
    | ArrowUp
    | Escape
    | Tab
    | Backspace
    | Enter
    | Space
    | Insert
    | Delete
    | Home
    | End
    | PageUp
    | PageDown
    | Minus
    | PlusEquals
    | Num0
    | Num1
    | Num2
    | Num3
    | Num4
    | Num5
    | Num6
    | Num7
    | Num8
    | Num9
    | A
    | B
    | C
    | D
    | E
    | F
    | G
    | H
    | I
    | J
    | K
    | L
    | M
    | N
    | O
    | P
    | Q
    | R
    | S
    | T
    | U
    | V
    | W
    | X
    | Y
    | Z
    | F1
    | F2
    | F3
    | F4
    | F5
    | F6
    | F7
    | F8
    | F9
    | F10
    | F11
    | F12
    | F13
    | F14
    | F15
    | F16
    | F17
    | F18
    | F19
    | F20

  /** `egui_to_key`: every egui key the program handles becomes a code with a name. */
  function EguiToKey(e: EguiKey): (r: Keyboard.Code)
    ensures Keyboard.Named(r)
  {
    match e
    case ArrowDown => Keyboard.ArrowDown
    case ArrowLeft => Keyboard.ArrowLeft
    case ArrowRight => Keyboard.ArrowRight
    case ArrowUp => Keyboard.ArrowUp
    case Escape => Keyboard.Escape
    case Tab => Keyboard.Tab
    case Backspace => Keyboard.Backspace
    case Enter => Keyboard.Enter
    case Space => Keyboard.Space
    case Insert => Keyboard.Insert
    case Delete => Keyboard.Delete
    case Home => Keyboard.Home
    case End => Keyboard.End
    case PageUp => Keyboard.PageUp
    case PageDown => Keyboard.PageDown
    case Minus => Keyboard.Minus
    case PlusEquals => Keyboard.Equal
    case Num0 => Keyboard.Digit0
    case Num1 => Keyboard.Digit1
    case Num2 => Keyboard.Digit2
    case Num3 => Keyboard.Digit3
    case Num4 => Keyboard.Digit4
    case Num5 => Keyboard.Digit5
    case Num6 => Keyboard.Digit6
    case Num7 => Keyboard.Digit7
    case Num8 => Keyboard.Digit8
    case Num9 => Keyboard.Digit9
    case A => Keyboard.KeyA
    case B => Keyboard.KeyB
    case C => Keyboard.KeyC
    case D => Keyboard.KeyD
    case E => Keyboard.KeyE
    case F => Keyboard.KeyF
    case G => Keyboard.KeyG
    case H => Keyboard.KeyH
    case I => Keyboard.KeyI
    case J => Keyboard.KeyJ
    case K => Keyboard.KeyK
    case L => Keyboard.KeyL
    case M => Keyboard.KeyM
    case N => Keyboard.KeyN
    case O => Keyboard.KeyO
    case P => Keyboard.KeyP
    case Q => Keyboard.KeyQ
    case R => Keyboard.KeyR
    case S => Keyboard.KeyS
    case T => Keyboard.KeyT
    case U => Keyboard.KeyU
    case V => Keyboard.KeyV
    case W => Keyboard.KeyW
    case X => Keyboard.KeyX
    case Y => Keyboard.KeyY
    case Z => Keyboard.KeyZ
    case F1 => Keyboard.F1
    case F2 => Keyboard.F2
    case F3 => Keyboard.F3
    case F4 => Keyboard.F4
    case F5 => Keyboard.F5
    case F6 => Keyboard.F6
    case F7 => Keyboard.F7
    case F8 => Keyboard.F8
    case F9 => Keyboard.F9
    case F10 => Keyboard.F10
    case F11 => Keyboard.F11
    case F12 => Keyboard.F12
    case F13 => Keyboard.F13
    case F14 => Keyboard.F14
    case F15 => Keyboard.F15
    case F16 => Keyboard.F16
    case F17 => Keyboard.F17
    case F18 => Keyboard.F18
    case F19 => Keyboard.F19
    case F20 => Keyboard.F20
  }

  /** The reverse table, `None` for codes egui has no key for. */
  function KeyToEgui(c: Keyboard.Code): Option<EguiKey> {
    match c
    case ArrowDown => Some(ArrowDown)
    case ArrowLeft => Some(ArrowLeft)
    case ArrowRight => Some(ArrowRight)
    case ArrowUp => Some(ArrowUp)
    case Escape => Some(Escape)
    case Tab => Some(Tab)
    case Backspace => Some(Backspace)
    case Enter => Some(Enter)
    case Space => Some(Space)
    case Insert => Some(Insert)
    case Delete => Some(Delete)
    case Home => Some(Home)
    case End => Some(End)
    case PageUp => Some(PageUp)
    case PageDown => Some(PageDown)
    case Minus => Some(Minus)
    case Equal => Some(PlusEquals)
    case Digit0 => Some(Num0)
    case Digit1 => Some(Num1)
    case Digit2 => Some(Num2)
    case Digit3 => Some(Num3)
    case Digit4 => Some(Num4)
    case Digit5 => Some(Num5)
    case Digit6 => Some(Num6)
    case Digit7 => Some(Num7)
    case Digit8 => Some(Num8)
    case Digit9 => Some(Num9)
    case KeyA => Some(A)
    case KeyB => Some(B)
    case KeyC => Some(C)
    case KeyD => Some(D)
    case KeyE => Some(E)
    case KeyF => Some(F)
    case KeyG => Some(G)
    case KeyH => Some(H)
    case KeyI => Some(I)
    case KeyJ => Some(J)
    case KeyK => Some(K)
    case KeyL => Some(L)
    case KeyM => Some(M)
    case KeyN => Some(N)
    case KeyO => Some(O)
    case KeyP => Some(P)
    case KeyQ => Some(Q)
    case KeyR => Some(R)
    case KeyS => Some(S)
    case KeyT => Some(T)
    case KeyU => Some(U)
    case KeyV => Some(V)
    case KeyW => Some(W)
    case KeyX => Some(X)
    case KeyY => Some(Y)
    case KeyZ => Some(Z)
    case F1 => Some(F1)
    case F2 => Some(F2)
    case F3 => Some(F3)
    case F4 => Some(F4)
    case F5 => Some(F5)
    case F6 => Some(F6)
    case F7 => Some(F7)
    case F8 => Some(F8)
    case F9 => Some(F9)
    case F10 => Some(F10)
    case F11 => Some(F11)
    case F12 => Some(F12)
    case F13 => Some(F13)
    case F14 => Some(F14)
    case F15 => Some(F15)
    case F16 => Some(F16)
    case F17 => Some(F17)
    case F18 => Some(F18)
    case F19 => Some(F19)
    case F20 => Some(F20)
    case Other(_) => None
  }

  predicate EguiFacts(e: EguiKey) {
    Keyboard.Named(EguiToKey(e)) && KeyToEgui(EguiToKey(e)) == Some(e)
  }

  predicate CodeFacts(c: Keyboard.Code) {
    KeyToEgui(c).Some? && EguiToKey(KeyToEgui(c).value) == c
  }

  /** Every egui key becomes a named code, and the reverse table gives the key back. */
  lemma EguiToKeySpec(e: EguiKey)
    ensures Keyboard.Named(EguiToKey(e))
    ensures Keyboard.KeyToStr(EguiToKey(e)) != "Unknown"
    ensures KeyToEgui(EguiToKey(e)) == Some(e)
  {
    EguiPart1(e);
    EguiPart2(e);
    EguiPart3(e);
    EguiPart4(e);
    EguiPart5(e);
    EguiPart6(e);
    EguiPart7(e);
    EguiPart8(e);
    Keyboard.StrToKeyInvertsKeyToStr(EguiToKey(e));
  }

  /** Distinct egui keys become distinct codes. */
  lemma EguiToKeyInjective(e1: EguiKey, e2: EguiKey)
    requires EguiToKey(e1) == EguiToKey(e2)
    ensures e1 == e2
  {
    EguiToKeySpec(e1);
    EguiToKeySpec(e2);
  }

  /** Every named code is the translation of some egui key: the UI can enter all of them. */
  lemma EguiToKeyOnto(c: Keyboard.Code)
    ensures KeyToEgui(c).Some? <==> Keyboard.Named(c)
    ensures KeyToEgui(c).Some? ==> EguiToKey(KeyToEgui(c).value) == c
  {
    CodePart1(c);
    CodePart2(c);
    CodePart3(c);
    CodePart4(c);
    CodePart5(c);
    CodePart6(c);
    CodePart7(c);
    CodePart8(c);
  }

  lemma EguiPart1(e: EguiKey)
    ensures (e.ArrowDown? || e.ArrowLeft? || e.ArrowRight? || e.ArrowUp? || e.Escape? || e.Tab? || e.Backspace? || e.Enter? || e.Space?)
            ==> EguiFacts(e)
  {
    if e.ArrowDown? { RowArrowDown(); }
    if e.ArrowLeft? { RowArrowLeft(); }
    if e.ArrowRight? { RowArrowRight(); }
    if e.ArrowUp? { RowArrowUp(); }
    if e.Escape? { RowEscape(); }
    if e.Tab? { RowTab(); }
    if e.Backspace? { RowBackspace(); }
    if e.Enter? { RowEnter(); }
    if e.Space? { RowSpace(); }
  }

  lemma EguiPart2(e: EguiKey)
    ensures (e.Insert? || e.Delete? || e.Home? || e.End? || e.PageUp? || e.PageDown? || e.Minus? || e.PlusEquals? || e.Num0?)
            ==> EguiFacts(e)
  {
    if e.Insert? { RowInsert(); }
    if e.Delete? { RowDelete(); }
    if e.Home? { RowHome(); }
    if e.End? { RowEnd(); }
    if e.PageUp? { RowPageUp(); }
    if e.PageDown? { RowPageDown(); }
    if e.Minus? { RowMinus(); }
    if e.PlusEquals? { RowPlusEquals(); }
    if e.Num0? { RowNum0(); }
  }

  lemma EguiPart3(e: EguiKey)
    ensures (e.Num1? || e.Num2? || e.Num3? || e.Num4? || e.Num5? || e.Num6? || e.Num7? || e.Num8? || e.Num9?)
            ==> EguiFacts(e)
  {
    if e.Num1? { RowNum1(); }
    if e.Num2? { RowNum2(); }
    if e.Num3? { RowNum3(); }
    if e.Num4? { RowNum4(); }
    if e.Num5? { RowNum5(); }
    if e.Num6? { RowNum6(); }
    if e.Num7? { RowNum7(); }
    if e.Num8? { RowNum8(); }
    if e.Num9? { RowNum9(); }
  }

  lemma EguiPart4(e: EguiKey)
    ensures (e.A? || e.B? || e.C? || e.D? || e.E? || e.F? || e.G? || e.H? || e.I?)
            ==> EguiFacts(e)
  {
    if e.A? { RowA(); }
    if e.B? { RowB(); }
    if e.C? { RowC(); }
    if e.D? { RowD(); }
    if e.E? { RowE(); }
    if e.F? { RowF(); }
    if e.G? { RowG(); }
    if e.H? { RowH(); }
    if e.I? { RowI(); }
  }

  lemma EguiPart5(e: EguiKey)
    ensures (e.J? || e.K? || e.L? || e.M? || e.N? || e.O? || e.P? || e.Q? || e.R?)
            ==> EguiFacts(e)
  {
    if e.J? { RowJ(); }
    if e.K? { RowK(); }
    if e.L? { RowL(); }
    if e.M? { RowM(); }
    if e.N? { RowN(); }
    if e.O? { RowO(); }
    if e.P? { RowP(); }
    if e.Q? { RowQ(); }
    if e.R? { RowR(); }
  }

  lemma EguiPart6(e: EguiKey)
    ensures (e.S? || e.T? || e.U? || e.V? || e.W? || e.X? || e.Y? || e.Z? || e.F1?)
            ==> EguiFacts(e)
  {
    if e.S? { RowS(); }
    if e.T? { RowT(); }
    if e.U? { RowU(); }
    if e.V? { RowV(); }
    if e.W? { RowW(); }
    if e.X? { RowX(); }
    if e.Y? { RowY(); }
    if e.Z? { RowZ(); }
    if e.F1? { RowF1(); }
  }

  lemma EguiPart7(e: EguiKey)
    ensures (e.F2? || e.F3? || e.F4? || e.F5? || e.F6? || e.F7? || e.F8? || e.F9? || e.F10?)
            ==> EguiFacts(e)
  {
    if e.F2? { RowF2(); }
    if e.F3? { RowF3(); }
    if e.F4? { RowF4(); }
    if e.F5? { RowF5(); }
    if e.F6? { RowF6(); }
    if e.F7? { RowF7(); }
    if e.F8? { RowF8(); }
    if e.F9? { RowF9(); }
    if e.F10? { RowF10(); }
  }

  lemma EguiPart8(e: EguiKey)
    ensures (e.F11? || e.F12? || e.F13? || e.F14? || e.F15? || e.F16? || e.F17? || e.F18? || e.F19? || e.F20?)
            ==> EguiFacts(e)
  {
    if e.F11? { RowF11(); }
    if e.F12? { RowF12(); }
    if e.F13? { RowF13(); }
    if e.F14? { RowF14(); }
    if e.F15? { RowF15(); }
    if e.F16? { RowF16(); }
    if e.F17? { RowF17(); }
    if e.F18? { RowF18(); }
    if e.F19? { RowF19(); }
    if e.F20? { RowF20(); }
  }

  lemma CodePart1(c: Keyboard.Code)
    ensures (c.ArrowDown? || c.ArrowLeft? || c.ArrowRight? || c.ArrowUp? || c.Escape? || c.Tab? || c.Backspace? || c.Enter? || c.Space?)
            ==> CodeFacts(c)
  {
    if c.ArrowDown? { RowArrowDown(); }
    if c.ArrowLeft? { RowArrowLeft(); }
    if c.ArrowRight? { RowArrowRight(); }
    if c.ArrowUp? { RowArrowUp(); }
    if c.Escape? { RowEscape(); }
    if c.Tab? { RowTab(); }
    if c.Backspace? { RowBackspace(); }
    if c.Enter? { RowEnter(); }
    if c.Space? { RowSpace(); }
  }

  lemma CodePart2(c: Keyboard.Code)
    ensures (c.Insert? || c.Delete? || c.Home? || c.End? || c.PageUp? || c.PageDown? || c.Minus? || c.Equal? || c.Digit0?)
            ==> CodeFacts(c)
  {
    if c.Insert? { RowInsert(); }
    if c.Delete? { RowDelete(); }
    if c.Home? { RowHome(); }
    if c.End? { RowEnd(); }
    if c.PageUp? { RowPageUp(); }
    if c.PageDown? { RowPageDown(); }
    if c.Minus? { RowMinus(); }
    if c.Equal? { RowPlusEquals(); }
    if c.Digit0? { RowNum0(); }
  }

  lemma CodePart3(c: Keyboard.Code)
    ensures (c.Digit1? || c.Digit2? || c.Digit3? || c.Digit4? || c.Digit5? || c.Digit6? || c.Digit7? || c.Digit8? || c.Digit9?)
            ==> CodeFacts(c)
  {
    if c.Digit1? { RowNum1(); }
    if c.Digit2? { RowNum2(); }
    if c.Digit3? { RowNum3(); }
    if c.Digit4? { RowNum4(); }
    if c.Digit5? { RowNum5(); }
    if c.Digit6? { RowNum6(); }
    if c.Digit7? { RowNum7(); }
    if c.Digit8? { RowNum8(); }
    if c.Digit9? { RowNum9(); }
  }

  lemma CodePart4(c: Keyboard.Code)
    ensures (c.KeyA? || c.KeyB? || c.KeyC? || c.KeyD? || c.KeyE? || c.KeyF? || c.KeyG? || c.KeyH? || c.KeyI?)
            ==> CodeFacts(c)
  {
    if c.KeyA? { RowA(); }
    if c.KeyB? { RowB(); }
    if c.KeyC? { RowC(); }
    if c.KeyD? { RowD(); }
    if c.KeyE? { RowE(); }
    if c.KeyF? { RowF(); }
    if c.KeyG? { RowG(); }
    if c.KeyH? { RowH(); }
    if c.KeyI? { RowI(); }
  }

  lemma CodePart5(c: Keyboard.Code)
    ensures (c.KeyJ? || c.KeyK? || c.KeyL? || c.KeyM? || c.KeyN? || c.KeyO? || c.KeyP? || c.KeyQ? || c.KeyR?)
            ==> CodeFacts(c)
  {
    if c.KeyJ? { RowJ(); }
    if c.KeyK? { RowK(); }
    if c.KeyL? { RowL(); }
    if c.KeyM? { RowM(); }
    if c.KeyN? { RowN(); }
    if c.KeyO? { RowO(); }
    if c.KeyP? { RowP(); }
    if c.KeyQ? { RowQ(); }
    if c.KeyR? { RowR(); }
  }

  lemma CodePart6(c: Keyboard.Code)
    ensures (c.KeyS? || c.KeyT? || c.KeyU? || c.KeyV? || c.KeyW? || c.KeyX? || c.KeyY? || c.KeyZ? || c.F1?)
            ==> CodeFacts(c)
  {
    if c.KeyS? { RowS(); }
    if c.KeyT? { RowT(); }
    if c.KeyU? { RowU(); }
    if c.KeyV? { RowV(); }
    if c.KeyW? { RowW(); }
    if c.KeyX? { RowX(); }
    if c.KeyY? { RowY(); }
    if c.KeyZ? { RowZ(); }
    if c.F1? { RowF1(); }
  }

  lemma CodePart7(c: Keyboard.Code)
    ensures (c.F2? || c.F3? || c.F4? || c.F5? || c.F6? || c.F7? || c.F8? || c.F9? || c.F10?)
            ==> CodeFacts(c)
  {
    if c.F2? { RowF2(); }
    if c.F3? { RowF3(); }
    if c.F4? { RowF4(); }
    if c.F5? { RowF5(); }
    if c.F6? { RowF6(); }
    if c.F7? { RowF7(); }
    if c.F8? { RowF8(); }
    if c.F9? { RowF9(); }
    if c.F10? { RowF10(); }
  }

  lemma CodePart8(c: Keyboard.Code)
    ensures (c.F11? || c.F12? || c.F13? || c.F14? || c.F15? || c.F16? || c.F17? || c.F18? || c.F19? || c.F20?)
            ==> CodeFacts(c)
  {
    if c.F11? { RowF11(); }
    if c.F12? { RowF12(); }
    if c.F13? { RowF13(); }
    if c.F14? { RowF14(); }
    if c.F15? { RowF15(); }
    if c.F16? { RowF16(); }
    if c.F17? { RowF17(); }
    if c.F18? { RowF18(); }
    if c.F19? { RowF19(); }
    if c.F20? { RowF20(); }
  }

  lemma RowArrowDown()
    ensures EguiToKey(ArrowDown) == Keyboard.ArrowDown && KeyToEgui(Keyboard.ArrowDown) == Some(ArrowDown)
  {
  }

  lemma RowArrowLeft()
    ensures EguiToKey(ArrowLeft) == Keyboard.ArrowLeft && KeyToEgui(Keyboard.ArrowLeft) == Some(ArrowLeft)
  {
  }

  lemma RowArrowRight()
    ensures EguiToKey(ArrowRight) == Keyboard.ArrowRight && KeyToEgui(Keyboard.ArrowRight) == Some(ArrowRight)
  {
  }

  lemma RowArrowUp()
    ensures EguiToKey(ArrowUp) == Keyboard.ArrowUp && KeyToEgui(Keyboard.ArrowUp) == Some(ArrowUp)
  {
  }

  lemma RowEscape()
    ensures EguiToKey(Escape) == Keyboard.Escape && KeyToEgui(Keyboard.Escape) == Some(Escape)
  {
  }

  lemma RowTab()
    ensures EguiToKey(Tab) == Keyboard.Tab && KeyToEgui(Keyboard.Tab) == Some(Tab)
  {
  }

  lemma RowBackspace()
    ensures EguiToKey(Backspace) == Keyboard.Backspace && KeyToEgui(Keyboard.Backspace) == Some(Backspace)
  {
  }

  lemma RowEnter()
    ensures EguiToKey(Enter) == Keyboard.Enter && KeyToEgui(Keyboard.Enter) == Some(Enter)
  {
  }

  lemma RowSpace()
    ensures EguiToKey(Space) == Keyboard.Space && KeyToEgui(Keyboard.Space) == Some(Space)
  {
  }

  lemma RowInsert()
    ensures EguiToKey(Insert) == Keyboard.Insert && KeyToEgui(Keyboard.Insert) == Some(Insert)
  {
  }

  lemma RowDelete()
    ensures EguiToKey(Delete) == Keyboard.Delete && KeyToEgui(Keyboard.Delete) == Some(Delete)
  {
  }

  lemma RowHome()
    ensures EguiToKey(Home) == Keyboard.Home && KeyToEgui(Keyboard.Home) == Some(Home)
  {
  }

  lemma RowEnd()
    ensures EguiToKey(End) == Keyboard.End && KeyToEgui(Keyboard.End) == Some(End)
  {
  }

  lemma RowPageUp()
    ensures EguiToKey(PageUp) == Keyboard.PageUp && KeyToEgui(Keyboard.PageUp) == Some(PageUp)
  {
  }

  lemma RowPageDown()
    ensures EguiToKey(PageDown) == Keyboard.PageDown && KeyToEgui(Keyboard.PageDown) == Some(PageDown)
  {
  }

  lemma RowMinus()
    ensures EguiToKey(Minus) == Keyboard.Minus && KeyToEgui(Keyboard.Minus) == Some(Minus)
  {
  }

  lemma RowPlusEquals()
    ensures EguiToKey(PlusEquals) == Keyboard.Equal && KeyToEgui(Keyboard.Equal) == Some(PlusEquals)
  {
  }

  lemma RowNum0()
    ensures EguiToKey(Num0) == Keyboard.Digit0 && KeyToEgui(Keyboard.Digit0) == Some(Num0)
  {
  }

  lemma RowNum1()
    ensures EguiToKey(Num1) == Keyboard.Digit1 && KeyToEgui(Keyboard.Digit1) == Some(Num1)
  {
  }

  lemma RowNum2()
    ensures EguiToKey(Num2) == Keyboard.Digit2 && KeyToEgui(Keyboard.Digit2) == Some(Num2)
  {
  }

  lemma RowNum3()
    ensures EguiToKey(Num3) == Keyboard.Digit3 && KeyToEgui(Keyboard.Digit3) == Some(Num3)
  {
  }

  lemma RowNum4()
    ensures EguiToKey(Num4) == Keyboard.Digit4 && KeyToEgui(Keyboard.Digit4) == Some(Num4)
  {
  }

  lemma RowNum5()
    ensures EguiToKey(Num5) == Keyboard.Digit5 && KeyToEgui(Keyboard.Digit5) == Some(Num5)
  {
  }

  lemma RowNum6()
    ensures EguiToKey(Num6) == Keyboard.Digit6 && KeyToEgui(Keyboard.Digit6) == Some(Num6)
  {
  }

  lemma RowNum7()
    ensures EguiToKey(Num7) == Keyboard.Digit7 && KeyToEgui(Keyboard.Digit7) == Some(Num7)
  {
  }

  lemma RowNum8()
    ensures EguiToKey(Num8) == Keyboard.Digit8 && KeyToEgui(Keyboard.Digit8) == Some(Num8)
  {
  }

  lemma RowNum9()
    ensures EguiToKey(Num9) == Keyboard.Digit9 && KeyToEgui(Keyboard.Digit9) == Some(Num9)
  {
  }

  lemma RowA()
    ensures EguiToKey(A) == Keyboard.KeyA && KeyToEgui(Keyboard.KeyA) == Some(A)
  {
  }

  lemma RowB()
    ensures EguiToKey(B) == Keyboard.KeyB && KeyToEgui(Keyboard.KeyB) == Some(B)
  {
  }

  lemma RowC()
    ensures EguiToKey(C) == Keyboard.KeyC && KeyToEgui(Keyboard.KeyC) == Some(C)
  {
  }

  lemma RowD()
    ensures EguiToKey(D) == Keyboard.KeyD && KeyToEgui(Keyboard.KeyD) == Some(D)
  {
  }

  lemma RowE()
    ensures EguiToKey(E) == Keyboard.KeyE && KeyToEgui(Keyboard.KeyE) == Some(E)
  {
  }

  lemma RowF()
    ensures EguiToKey(F) == Keyboard.KeyF && KeyToEgui(Keyboard.KeyF) == Some(F)
  {
  }

  lemma RowG()
    ensures EguiToKey(G) == Keyboard.KeyG && KeyToEgui(Keyboard.KeyG) == Some(G)
  {
  }

  lemma RowH()
    ensures EguiToKey(H) == Keyboard.KeyH && KeyToEgui(Keyboard.KeyH) == Some(H)
  {
  }

  lemma RowI()
    ensures EguiToKey(I) == Keyboard.KeyI && KeyToEgui(Keyboard.KeyI) == Some(I)
  {
  }

  lemma RowJ()
    ensures EguiToKey(J) == Keyboard.KeyJ && KeyToEgui(Keyboard.KeyJ) == Some(J)
  {
  }

  lemma RowK()
    ensures EguiToKey(K) == Keyboard.KeyK && KeyToEgui(Keyboard.KeyK) == Some(K)
  {
  }

  lemma RowL()
    ensures EguiToKey(L) == Keyboard.KeyL && KeyToEgui(Keyboard.KeyL) == Some(L)
  {
  }

  lemma RowM()
    ensures EguiToKey(M) == Keyboard.KeyM && KeyToEgui(Keyboard.KeyM) == Some(M)
  {
  }

  lemma RowN()
    ensures EguiToKey(N) == Keyboard.KeyN && KeyToEgui(Keyboard.KeyN) == Some(N)
  {
  }

  lemma RowO()
    ensures EguiToKey(O) == Keyboard.KeyO && KeyToEgui(Keyboard.KeyO) == Some(O)
  {
  }

  lemma RowP()
    ensures EguiToKey(P) == Keyboard.KeyP && KeyToEgui(Keyboard.KeyP) == Some(P)
  {
  }

  lemma RowQ()
    ensures EguiToKey(Q) == Keyboard.KeyQ && KeyToEgui(Keyboard.KeyQ) == Some(Q)
  {
  }

  lemma RowR()
    ensures EguiToKey(R) == Keyboard.KeyR && KeyToEgui(Keyboard.KeyR) == Some(R)
  {
  }

  lemma RowS()
    ensures EguiToKey(S) == Keyboard.KeyS && KeyToEgui(Keyboard.KeyS) == Some(S)
  {
  }

  lemma RowT()
    ensures EguiToKey(T) == Keyboard.KeyT && KeyToEgui(Keyboard.KeyT) == Some(T)
  {
  }

  lemma RowU()
    ensures EguiToKey(U) == Keyboard.KeyU && KeyToEgui(Keyboard.KeyU) == Some(U)
  {
  }

  lemma RowV()
    ensures EguiToKey(V) == Keyboard.KeyV && KeyToEgui(Keyboard.KeyV) == Some(V)
  {
  }

  lemma RowW()
    ensures EguiToKey(W) == Keyboard.KeyW && KeyToEgui(Keyboard.KeyW) == Some(W)
  {
  }

  lemma RowX()
    ensures EguiToKey(X) == Keyboard.KeyX && KeyToEgui(Keyboard.KeyX) == Some(X)
  {
  }

  lemma RowY()
    ensures EguiToKey(Y) == Keyboard.KeyY && KeyToEgui(Keyboard.KeyY) == Some(Y)
  {
  }

  lemma RowZ()
    ensures EguiToKey(Z) == Keyboard.KeyZ && KeyToEgui(Keyboard.KeyZ) == Some(Z)
  {
  }

  lemma RowF1()
    ensures EguiToKey(F1) == Keyboard.F1 && KeyToEgui(Keyboard.F1) == Some(F1)
  {
  }

  lemma RowF2()
    ensures EguiToKey(F2) == Keyboard.F2 && KeyToEgui(Keyboard.F2) == Some(F2)
  {
  }

  lemma RowF3()
    ensures EguiToKey(F3) == Keyboard.F3 && KeyToEgui(Keyboard.F3) == Some(F3)
  {
  }

  lemma RowF4()
    ensures EguiToKey(F4) == Keyboard.F4 && KeyToEgui(Keyboard.F4) == Some(F4)
  {
  }

  lemma RowF5()
    ensures EguiToKey(F5) == Keyboard.F5 && KeyToEgui(Keyboard.F5) == Some(F5)
  {
  }

  lemma RowF6()
    ensures EguiToKey(F6) == Keyboard.F6 && KeyToEgui(Keyboard.F6) == Some(F6)
  {
  }

  lemma RowF7()
    ensures EguiToKey(F7) == Keyboard.F7 && KeyToEgui(Keyboard.F7) == Some(F7)
  {
  }

  lemma RowF8()
    ensures EguiToKey(F8) == Keyboard.F8 && KeyToEgui(Keyboard.F8) == Some(F8)
  {
  }

  lemma RowF9()
    ensures EguiToKey(F9) == Keyboard.F9 && KeyToEgui(Keyboard.F9) == Some(F9)
  {
  }

  lemma RowF10()
    ensures EguiToKey(F10) == Keyboard.F10 && KeyToEgui(Keyboard.F10) == Some(F10)
  {
  }

  lemma RowF11()
    ensures EguiToKey(F11) == Keyboard.F11 && KeyToEgui(Keyboard.F11) == Some(F11)
  {
  }

  lemma RowF12()
    ensures EguiToKey(F12) == Keyboard.F12 && KeyToEgui(Keyboard.F12) == Some(F12)
  {
  }

  lemma RowF13()
    ensures EguiToKey(F13) == Keyboard.F13 && KeyToEgui(Keyboard.F13) == Some(F13)
  {
  }

  lemma RowF14()
    ensures EguiToKey(F14) == Keyboard.F14 && KeyToEgui(Keyboard.F14) == Some(F14)
  {
  }

  lemma RowF15()
    ensures EguiToKey(F15) == Keyboard.F15 && KeyToEgui(Keyboard.F15) == Some(F15)
  {
  }

  lemma RowF16()
    ensures EguiToKey(F16) == Keyboard.F16 && KeyToEgui(Keyboard.F16) == Some(F16)
  {
  }

  lemma RowF17()
    ensures EguiToKey(F17) == Keyboard.F17 && KeyToEgui(Keyboard.F17) == Some(F17)
  {
  }

  lemma RowF18()
    ensures EguiToKey(F18) == Keyboard.F18 && KeyToEgui(Keyboard.F18) == Some(F18)
  {
  }

  lemma RowF19()
    ensures EguiToKey(F19) == Keyboard.F19 && KeyToEgui(Keyboard.F19) == Some(F19)
  {
  }

  lemma RowF20()
    ensures EguiToKey(F20) == Keyboard.F20 && KeyToEgui(Keyboard.F20) == Some(F20)
  {
  }
}
