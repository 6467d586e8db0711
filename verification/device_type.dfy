/** Device kinds and their classification from HID usage pages and usages
    (USB HID Usage Tables 1.4: section 4, the Generic Desktop page; section 16, the
    Digitizers page; section 3, the vendor-defined page range). */
module DeviceTypes {
  import opened Wrappers
  import opened Ints

  datatype DeviceType =
      Unknown
    | Dummy
    | UnknownHid
    // Generic Desktop page
    | Pointer
    | Mouse
    | Joystick
    | Gamepad
    | Keyboard
    | Keypad
    | OtherGenericDesktop
    // Digitizers page
    | Digitizer
    | Pen
    | LightPen
    | TouchScreen
    | TouchPad
    | Whiteboard
    | OtherDigitizer
    // pages 0xFF00 and above
    | VendorDefined

  const PAGE_GENERIC_DESKTOP: u16 := 0x01
  const PAGE_DIGITIZER: u16 := 0x0D
  const PAGE_VENDOR_FIRST: u16 := 0xFF00

  /** The usage ids of the Generic Desktop page the program tells apart. */
  function GenericDesktopUsage(t: DeviceType): Option<u16> {
    match t
    case Pointer => Some(0x01)
    case Mouse => Some(0x02)
    case Joystick => Some(0x04)
    case Gamepad => Some(0x05)
    case Keyboard => Some(0x06)
    case Keypad => Some(0x07)
    case _ => None
  }

  /** The usage ids of the Digitizers page the program tells apart. */
  function DigitizerUsage(t: DeviceType): Option<u16> {
    match t
    case Digitizer => Some(0x01)
    case Pen => Some(0x02)
    case LightPen => Some(0x03)
    case TouchScreen => Some(0x04)
    case TouchPad => Some(0x05)
    case Whiteboard => Some(0x06)
    case _ => None
  }

  /** `DeviceType::from_hid_usage`. */
  function FromHidUsage(page: u16, usage: u16): (r: DeviceType)
    ensures r != Unknown && r != Dummy
    ensures r == VendorDefined <==> page >= PAGE_VENDOR_FIRST
    ensures r == UnknownHid <==> page != PAGE_GENERIC_DESKTOP && page != PAGE_DIGITIZER && page < PAGE_VENDOR_FIRST
    ensures page == PAGE_GENERIC_DESKTOP ==>
              r == OtherGenericDesktop || GenericDesktopUsage(r) == Some(usage)
    ensures page == PAGE_DIGITIZER ==>
              r == OtherDigitizer || DigitizerUsage(r) == Some(usage)
    ensures GenericDesktopUsage(r).Some? || r == OtherGenericDesktop ==> page == PAGE_GENERIC_DESKTOP
    ensures DigitizerUsage(r).Some? || r == OtherDigitizer ==> page == PAGE_DIGITIZER
  {
    if page >= PAGE_VENDOR_FIRST then VendorDefined
    else if page == PAGE_GENERIC_DESKTOP then
      match usage
      case 0x01 => Pointer
      case 0x02 => Mouse
      case 0x04 => Joystick
      case 0x05 => Gamepad
      case 0x06 => Keyboard
      case 0x07 => Keypad
      case _ => OtherGenericDesktop
    else if page == PAGE_DIGITIZER then
      match usage
      case 0x01 => Digitizer
      case 0x02 => Pen
      case 0x03 => LightPen
      case 0x04 => TouchScreen
      case 0x05 => TouchPad
      case 0x06 => Whiteboard
      case _ => OtherDigitizer
    else UnknownHid
  }

  /** The table read backwards: each kind the program tells apart is recognised from
      its usage id, so a usage falls into the "other" kind of its page exactly when
      no kind of the table carries it. */
  lemma FromHidUsageRecognisesTable(t: DeviceType)
    ensures GenericDesktopUsage(t).Some? ==>
              FromHidUsage(PAGE_GENERIC_DESKTOP, GenericDesktopUsage(t).value) == t
    ensures DigitizerUsage(t).Some? ==>
              FromHidUsage(PAGE_DIGITIZER, DigitizerUsage(t).value) == t
  {
  }

  /** A Generic Desktop usage that no kind of the table carries is "other". */
  lemma OtherGenericDesktopExactly(usage: u16)
    ensures FromHidUsage(PAGE_GENERIC_DESKTOP, usage) == OtherGenericDesktop <==>
              usage !in {0x01, 0x02, 0x04, 0x05, 0x06, 0x07}
  {
  }

  /** A Digitizers usage that no kind of the table carries is "other". */
  lemma OtherDigitizerExactly(usage: u16)
    ensures FromHidUsage(PAGE_DIGITIZER, usage) == OtherDigitizer <==> !(0x01 <= usage <= 0x06)
  {
  }

  /** `DeviceType::is_pointer`: the kinds that move a cursor, and the dummy device. In
      HID terms: every kind of the Digitizers page, and the Pointer and Mouse usages of
      the Generic Desktop page; vendor-defined, unknown and other desktop kinds are not. */
  predicate IsPointer(t: DeviceType): (r: bool)
    ensures r <==> t == Dummy || DigitizerUsage(t).Some? || t == OtherDigitizer
                   || GenericDesktopUsage(t) == Some(0x01) || GenericDesktopUsage(t) == Some(0x02)
    ensures r ==> GenericDesktopUsage(t).Some? || DigitizerUsage(t).Some? || t in {Dummy, OtherDigitizer}
  {
    t.Dummy? || t.Pointer? || t.Mouse? || t.Digitizer? || t.Pen? || t.LightPen?
    || t.TouchScreen? || t.TouchPad? || t.Whiteboard? || t.OtherDigitizer?
  }

  /** Which usages classify as pointers: every Digitizers usage, and the Pointer and
      Mouse usages of the Generic Desktop page. */
  lemma IsPointerFromHidUsage(page: u16, usage: u16)
    ensures IsPointer(FromHidUsage(page, usage)) <==>
              page == PAGE_DIGITIZER || (page == PAGE_GENERIC_DESKTOP && (usage == 0x01 || usage == 0x02))
  {
  }

  /** `WindowsRawinput::REGISTER_USAGE_SET`: all Digitizers usages (`ALL` is 0), Generic
      Desktop Pointer and Mouse. */
  const USAGE_ALL: u16 := 0
  const REGISTER_USAGE_SET: seq<(u16, u16)> :=
    [(PAGE_DIGITIZER, USAGE_ALL), (PAGE_GENERIC_DESKTOP, 0x01), (PAGE_GENERIC_DESKTOP, 0x02)]

  /** Every usage pair the program registers for classifies as a pointer. */
  lemma RegisteredUsagesArePointers(i: nat)
    requires i < |REGISTER_USAGE_SET|
    ensures IsPointer(FromHidUsage(REGISTER_USAGE_SET[i].0, REGISTER_USAGE_SET[i].1))
  {
    IsPointerFromHidUsage(REGISTER_USAGE_SET[i].0, REGISTER_USAGE_SET[i].1);
  }
}
