# MonMouse core in Dafny

MonMouse is a Windows tool for several pointing devices and monitors. It can lock a
device's cursor inside the monitor where it started, and it can move the cursor back to
a device's last position when that device becomes active again. This project models the
sequential logic behind those features and proves properties of it. The Win32 calls around
that logic are not modelled.

One Dafny module per source file:

- `MouseControl`: the relocation engine in `src/mouse_control.rs`.
  - Monitor rectangles, with inclusive containment and per-axis clamping.
  - The per-device controller.
  - The `MouseRelocator` state machine, which stages at most one relocation at a time.
- `Utils`: the tick-based rate limiter and the fixed-size optional array.
- `Keyboard`, `ShortcutText`, `KeyWindows`, `KeyEgui`: shortcut handling.
  - The key-name table and the `Mod+Mod+Key` text grammar (parser and printer).
  - Translation to `RegisterHotKey` modifier bits and virtual keys.
  - Translation from egui's modifier flags and keys.
- `DeviceTypes`: classification of HID usage pages and usages. It follows USB HID Usage
  Tables 1.4, sections 3, 4 and 16.
- `WinTypes`: the byte and UTF-16 buffers.
  - Little-endian conversion between bytes and units.
  - Splitting a NUL-separated list, and the prefix before the first NUL.
  - UTF-16 encoding of a string.
- `WinWrap`: the pure parts of the Win32 wrappers.
  - Raw-input device kinds.
  - The 32 to 64-bit tick widener.
  - The hotkey cookie and the `HotKeyManager` maps.
- `WinProcessor`: the device processor.
  - The handle→index registry with its active device.
  - Integer DPI scaling in both directions.
  - Rate-limited rescans.
  - The two input handlers: the low-level mouse hook and the raw-input handler.
- `Message`, `App`: the traffic between the control thread and the UI thread.
  - Channels are modelled as FIFO sequences; the close signal is a one-slot flag.
  - The UI side: merging a device scan, applying a status report, and waiting for a
    restart.

`Wrappers` (Option, Result), `Ints` (integer widths, and Rust's signed division, which
truncates toward zero) and `Errors` are support modules.

The host is modelled as input parameters: the 64-bit tick, the device list, the monitor
list and the result of `RegisterHotKey`/`UnregisterHotKey`. Every state is an immutable
record. Each operation is a function or method that returns the new state.

`capture_pos` clamps to the exact edge of the area, as its unit test at
src/mouse_control.rs:222-237 expects (`MouseControl.CapturePos`,
`MouseControl.CapturePosExamples`).

## Model

| member | source | states |
|---|---|---|
| MouseControl.Contains | src/mouse_control.rs:189-192 | containment is inclusive on all four edges, and only a well-formed area contains any point |
| MouseControl.ClampAxis | src/mouse_control.rs:194-203 | for a non-empty range the result lies in it, and a value already in range is kept |
| MouseControl.CapturePos | src/mouse_control.rs:193-205 | clamping a point into a well-formed area gives a point the area contains, nearest to the input on each axis; a contained point is returned unchanged |
| MouseControl.CaptureFixedIffContained | src/mouse_control.rs:189-205 | clamping leaves a point in place exactly when the area contains it |
| MouseControl.CaptureIdempotent | src/mouse_control.rs:193-205 | clamping twice gives the same point as clamping once |
| MouseControl.CapturePosExamples | src/mouse_control.rs:222-237 | the seven clamping cases of the unit test, edges included |
| MouseControl.Locate | src/mouse_control.rs:166-168 | returns nothing exactly when no area contains the point; otherwise the first area in list order that contains it |
| MouseControl.LocateIsFirstMatch | src/mouse_control.rs:166-168 | when area k is the first that contains the point, `locate` returns area k |
| MouseControl.NewController | src/mouse_control.rs:37-45 | a new controller keeps its id and setting, and has no remembered position and no cached area |
| MouseControl.UpdateSettings | src/mouse_control.rs:47-50 | the setting is replaced and the cached area dropped; id and remembered position are kept |
| MouseControl.ResetRestricArea | src/mouse_control.rs:51-53 | only the cached area is dropped |
| MouseControl.GetLastPos | src/mouse_control.rs:60-66 | a position is remembered exactly when the device has been active at a non-zero tick, and it is the last one recorded |
| MouseControl.UpdatePos | src/mouse_control.rs:55-66 | after recording at a non-zero tick the remembered position is that position; a zero tick leaves none |
| MouseControl.NewRelocator | src/mouse_control.rs:85-94 | no monitors, nothing staged, topology not stale; current mouse 0 and current position (0, 0), which the first `on_mouse_update` compares and records |
| MouseControl.UpdateMonitors | src/mouse_control.rs:96-98 | only the monitor list changes; a staged relocation survives |
| MouseControl.OnPosUpdate | src/mouse_control.rs:100-123 | without the lock policy the position is adopted. With a cached area, a position outside it stages its clamp at the area's scale and keeps the cursor; any other position is adopted. Without a cached area, a monitor containing the position is cached and the position adopted; otherwise the topology is flagged stale |
| MouseControl.OnPosUpdateKeepsLock | src/mouse_control.rs:100-123 | a locked cursor inside its cached area stays inside; a relocation staged for a well-formed area lands inside it |
| MouseControl.FirstLockedSampleNeverRelocates | src/mouse_control.rs:111-119 | the first sample of a newly locked device never stages a relocation; it either caches an area containing the sample or flags the topology stale |
| MouseControl.OnMouseUpdate | src/mouse_control.rs:125-144 | on a switch to a device that remembers a position, a relocation to that position is staged (or the topology flagged stale) and nothing is recorded; otherwise the current cursor is recorded at the tick |
| MouseControl.SwitchBackRestoresPosition | src/mouse_control.rs:125-144 | switching away from a device and back stages a relocation to where the cursor was when it left |
| MouseControl.PopRelocatePos | src/mouse_control.rs:146-148 | returns the staged relocation and clears it |
| MouseControl.PopIsOneShot | src/mouse_control.rs:146-148 | a second pop returns nothing |
| MouseControl.NeedUpdateMonitors | src/mouse_control.rs:150-152 | reports exactly the stale-topology flag that a sample outside every monitor raises |
| MouseControl.DoneUpdateMonitors | src/mouse_control.rs:150-155 | the stale flag is cleared and nothing else changes |
| Utils.NewRatelimit | src/utils.rs:7-9 | a fresh limiter allows its first call whatever the tick |
| Utils.Allow | src/utils.rs:10-17 | allows exactly when the tick has reached `next`; an allowed call moves `next` to tick + period; a refused call changes nothing |
| Utils.AllowBlocksWindow | src/utils.rs:10-17 | after an allowed call at t, every tick in [t, t + period) is refused |
| Utils.AllowRunRespectsNext | src/utils.rs:10-17 | in a run of calls, an allowed call's tick is at least the starting `next` |
| Utils.AllowedCallsAreSpaced | src/utils.rs:10-17 | any two allowed calls in a run are at least one period apart |
| Utils.Reset | src/utils.rs:18-21 | the period becomes v and `next` moves by the change of period |
| Utils.ResetKeepsPhase | src/utils.rs:10-21 | resetting right after an allowed call at t gives the limiter that call would have left with period v |
| Utils.FreshLimiterCannotReset | src/utils.rs:7-9 | on a fresh limiter with a non-zero period `reset` would underflow |
| Utils.DefaultArrayVec | src/utils.rs:28-32 | n empty slots |
| Utils.ToVec | src/utils.rs:35-37 | the slots in order |
| Utils.DefaultToVecIsAllNone | src/utils.rs:28-38 | a default array reads as n `None`s |
| Keyboard.ModifierOr | src/keyboard/mod.rs:8-15 | always returns a set, holding each flag of `m` and of the old set |
| Keyboard.ModifierOrCommutes | src/keyboard/mod.rs:8-15 | adding two modifiers in either order gives the same set |
| Keyboard.ShortcutToStr | src/keyboard/mod.rs:20-38 | the printed text ends in the key's name, and holds a `+` exactly when some modifier is set |
| Keyboard.KeyToStr | src/keyboard/mod.rs:85-162 | names contain no `+`, and "Unknown" is printed exactly for the codes outside the table |
| Keyboard.StrToKey | src/keyboard/mod.rs:164-241 | an accepted name always gives a named code; that it is that code's printed name is `Keyboard.KeyToStrInvertsStrToKey` |
| Keyboard.StrToKeyInvertsKeyToStr | src/keyboard/mod.rs:85-241 | `str_to_key` reads back every code `key_to_str` names, and those names contain no `+` and are no modifier name; exactly the unnamed codes print as "Unknown" |
| Keyboard.KeyToStrInvertsStrToKey | src/keyboard/mod.rs:85-241 | every name `str_to_key` accepts is the name of the code it returns; "Unknown" is rejected |
| Keyboard.KeyToStrInjective | src/keyboard/mod.rs:85-162 | distinct named codes have distinct names |
| Keyboard.ShortcutToStrExamples | src/keyboard/mod.rs:258-268 | the printed forms in the unit test, e.g. SHIFT+ALT with Home prints "Alt+Shift+Home" |
| ShortcutText.ShortcutToStrSegments | src/keyboard/mod.rs:20-38 | for every modifier set, the Windows key included, the printed text splits into the modifiers in the order Ctrl, Win, Alt, Shift, then the key name |
| ShortcutText.ScanCharsIsFold | src/keyboard/mod.rs:64-77 | the character loop equals a fold of `match_one` over the segments between `+` signs |
| ShortcutText.ParseBySegments | src/keyboard/mod.rs:40-83 | parsing rejects a leading `+` and otherwise folds over the split segments |
| ShortcutText.FoldSpec | src/keyboard/mod.rs:45-62 | the fold succeeds exactly when every segment is a modifier or a known key and at most one key appears; its result is the union of the modifiers and that key |
| ShortcutText.ShortcutFromStrSpec | src/keyboard/mod.rs:40-83 | `shortcut_from_str` gives (m, c) exactly when there is no leading `+`, every segment is recognised, c is the only key, and m is the union of the modifier segments |
| ShortcutText.ShortcutFromStr | src/keyboard/mod.rs:40-83 | a parsed key is always a named code (`ShortcutText.ParsedKeyIsNamed`) |
| ShortcutText.ParsedKeyIsNamed | src/keyboard/mod.rs:55-58 | the parser takes its key only from `str_to_key`, so a parsed key is named |
| ShortcutText.TrailingPlusRejected | src/keyboard/mod.rs:64-77 | text ending in `+` never parses |
| ShortcutText.LeadingPlusRejected | src/keyboard/mod.rs:65-68 | text starting with `+` never parses |
| ShortcutText.FoldRejectsTwoKeys | src/keyboard/mod.rs:51-54 | two key segments are rejected |
| ShortcutText.ParseJoin | src/keyboard/mod.rs:40-83 | parsing segments joined by `+` succeeds exactly when all are recognised, exactly one is a key and some modifier is present |
| ShortcutText.ParseJoinRejectsAt | src/keyboard/mod.rs:55-58 | an unknown segment anywhere is rejected |
| ShortcutText.ParseJoinNeedsKey | src/keyboard/mod.rs:78-82 | modifiers alone are rejected |
| ShortcutText.ParseJoinNeedsModifier | src/keyboard/mod.rs:78-82 | a key without modifiers is rejected |
| ShortcutText.ParseJoinModsThenKey | src/keyboard/mod.rs:40-83 | modifiers in any order followed by one key parse to their union and that key |
| ShortcutText.ShortcutRoundTrip | src/keyboard/mod.rs:20-83 | for a non-empty set of Ctrl, Alt, Shift and a named key, parsing the printed text gives the set and key back |
| ShortcutText.MetaNeverRoundTrips | src/keyboard/mod.rs:18-83 | text printed with the Windows key never parses, since "Win+" is matched against a segment that cannot contain `+` |
| ShortcutText.ShortcutFromStrAcceptsCtrlAltF9 | src/keyboard/mod.rs:258-262 | "Ctrl+Alt+F9" parses to CONTROL with ALT, and F9 |
| ShortcutText.ShortcutFromStrAcceptsAltShiftHome | src/keyboard/mod.rs:263-267 | "Alt+Shift+Home" parses to SHIFT with ALT, and Home |
| ShortcutText.ShortcutFromStrAcceptsAnyOrder | src/keyboard/mod.rs:271-277 | "Shift+Alt+Ctrl+3" parses to CONTROL, SHIFT and ALT with Digit3 |
| ShortcutText.ShortcutFromStrRejectsStrayPlus | src/keyboard/mod.rs:268-283 | "Alt+Shift+", "+Shift+3" and "Ctrl+Shift+4+" are rejected |
| ShortcutText.ShortcutFromStrRejectsUnknownName | src/keyboard/mod.rs:280-281 | "Ctrl+Shift+GI" is rejected |
| ShortcutText.ShortcutFromStrRejectsTwoKeys | src/keyboard/mod.rs:286-287 | "Ctrl+Shift+A+D" is rejected |
| ShortcutText.ShortcutFromStrRejectsNoKey | src/keyboard/mod.rs:284-285 | "Ctrl+Shift" is rejected |
| ShortcutText.ShortcutFromStrRejectsNoModifier | src/keyboard/mod.rs:288-289 | "A" is rejected |
| KeyWindows.ModifierToWin | src/keyboard/key_windows.rs:10-25 | exactly MOD_CONTROL, MOD_ALT, MOD_SHIFT and MOD_WIN for ctrl, alt, shift and meta, no other bit, and zero only for the empty set |
| KeyWindows.ModifierToWinInjective | src/keyboard/key_windows.rs:10-25 | the bits determine the modifier set |
| KeyWindows.KeyToWin | src/keyboard/key_windows.rs:27-104 | a virtual key exists exactly for the named codes, and it lies in 1..255 |
| KeyWindows.KeyToWinSpec | src/keyboard/key_windows.rs:27-104 | a virtual key exists exactly for the codes `key_to_str` names, and the reverse table gives the code back |
| KeyWindows.KeyToWinInjective | src/keyboard/key_windows.rs:29-101 | distinct codes get distinct virtual keys |
| KeyWindows.WinToKeyInvertsKeyToWin | src/keyboard/key_windows.rs:29-101 | the reverse table holds only pairs `key_to_win` produces |
| KeyWindows.ShortcutStrToWin | src/keyboard/key_windows.rs:6-8 | fails exactly when the text does not parse; on success the modifier bits fit in 4 bits and the key in 1..255 |
| KeyWindows.ShortcutStrToWinSpec | src/keyboard/key_windows.rs:6-8 | fails exactly when parsing fails; otherwise its bits and virtual key decode to the parsed set and key |
| KeyWindows.ShortcutStrToWinRoundTrip | src/keyboard/key_windows.rs:6-8 | a printed shortcut without the Windows key registers with exactly its own bits and key |
| KeyEgui.EguiToModifier | src/keyboard/key_egui.rs:14-32 | nothing exactly when no flag is set; otherwise CONTROL iff ctrl or command (the command key is Control on Windows), SHIFT iff shift, ALT iff alt, META iff mac_cmd |
| KeyEgui.EguiToKey | src/keyboard/key_egui.rs:34-110 | every egui key becomes a named code |
| KeyEgui.EguiToKeySpec | src/keyboard/key_egui.rs:34-110 | every egui key becomes a named code, and the reverse table gives the key back |
| KeyEgui.EguiToKeyInjective | src/keyboard/key_egui.rs:34-110 | distinct egui keys become distinct codes |
| KeyEgui.EguiToKeyOnto | src/keyboard/key_egui.rs:34-110 | every named code comes from some egui key |
| DeviceTypes.FromHidUsage | src/device_type.rs:36-61 | never Unknown or Dummy. Pages from 0xFF00 give VendorDefined. Other pages than 0x01 and 0x0D give UnknownHID. On pages 0x01 and 0x0D the result is the kind of that usage, or the page's Other kind |
| DeviceTypes.FromHidUsageRecognisesTable | src/device_type.rs:41-57 | each kind listed for a usage is what that usage classifies as |
| DeviceTypes.OtherGenericDesktopExactly | src/device_type.rs:41-49 | page 0x01 gives OtherGenericDesktop exactly for usages other than 1, 2, 4, 5, 6, 7 |
| DeviceTypes.OtherDigitizerExactly | src/device_type.rs:50-57 | page 0x0D gives OtherDigitizer exactly for usages outside 1 to 6 |
| DeviceTypes.IsPointer | src/device_type.rs:63-77 | the dummy device, every kind of the Digitizers page, and the Pointer and Mouse kinds of the Generic Desktop page; no vendor-defined, unknown or other desktop kind |
| DeviceTypes.IsPointerFromHidUsage | src/device_type.rs:36-77 | a classified device is a pointer exactly when it is on page 0x0D, or on page 0x01 with usage 1 or 2 |
| DeviceTypes.RegisteredUsagesArePointers | src/device_type.rs:88-95 | every usage pair registered for raw input classifies as a pointer |
| WinTypes.Resize | src/windows/wintypes.rs:98-100 | the new length, the common prefix kept, the rest filled |
| WinTypes.ResizeBack | src/windows/wintypes.rs:98-100 | growing then shrinking back restores the contents |
| WinTypes.NewWBuffer | src/windows/wintypes.rs:95-97 | `size` zero bytes |
| WinTypes.ResizeWBuffer | src/windows/wintypes.rs:98-100 | keeps the common prefix and pads with zeros |
| WinTypes.NewWString | src/windows/wintypes.rs:141-143 | `size` zero units |
| WinTypes.ResizeWString | src/windows/wintypes.rs:144-146 | keeps the common prefix and pads with zeros |
| WinTypes.NewIsResizedEmpty | src/windows/wintypes.rs:95-99 | a new buffer is an empty buffer resized |
| WinTypes.BytesToUnits | src/windows/wintypes.rs:121-134 | ⌈n/2⌉ units |
| WinTypes.BytesToUnitsAt | src/windows/wintypes.rs:124-130 | each full pair is low byte plus 256 times high byte |
| WinTypes.BytesToUnitsOdd | src/windows/wintypes.rs:126-127 | a lone final byte becomes a unit of its own |
| WinTypes.ToWString | src/windows/wintypes.rs:121-135 | ⌈n/2⌉ units; each full pair of bytes becomes one little-endian unit, and a lone last byte becomes the last unit |
| WinTypes.UnitsToBytes | src/windows/wintypes.rs:197-204 | 2n bytes, low byte then high byte of each unit |
| WinTypes.ToWBuffer | src/windows/wintypes.rs:197-204 | 2n bytes; each unit gives its low byte, then its high byte |
| WinTypes.ToWStringInvertsToWBuffer | src/windows/wintypes.rs:197-204 | `w.to_wbuffer().to_wstring() == w` |
| WinTypes.ToWBufferInvertsToWString | src/windows/wintypes.rs:121-135 | on an even-length buffer `b.to_wstring().to_wbuffer() == b` |
| WinTypes.FoldEos | src/windows/wintypes.rs:177-187 | the pieces collected so far are kept; every piece added is longer than one unit and ends in 0; after a final 0 no run is left open |
| WinTypes.FoldEosIsCut | src/windows/wintypes.rs:177-187 | the fold of `split_by_eos` keeps the long pieces of the cut after each 0, and carries the unterminated tail |
| WinTypes.SplitByEos | src/windows/wintypes.rs:175-192 | every piece is longer than one unit, every piece but the last ends in 0, and all do when the input ends in 0 |
| WinTypes.SplitByEosIsLongCut | src/windows/wintypes.rs:175-192 | `split_by_eos` is the pieces of length above 1 of the cut after each 0, the tail included |
| WinTypes.CutAfterZerosSpec | src/windows/wintypes.rs:175-192 | the cut pieces concatenate to the input, every piece but the last ends in its only 0, and the last holds no 0 (it is empty when the input ends in 0) |
| WinTypes.SplitByEosSpec | src/windows/wintypes.rs:175-192 | every piece has length at least 2 and ends in its only 0, except possibly an unterminated last piece; when the input ends in 0, all pieces end in 0 |
| WinTypes.StrBeforeNull | src/windows/wintypes.rs:193-195 | the longest prefix without a 0 |
| WinTypes.StrBeforeNullIsFirstRun | src/windows/wintypes.rs:175-195 | with a 0 present, the prefix plus that 0 is the first cut piece |
| WinTypes.EncodeChar | src/windows/wintypes.rs:205-206 | one unit equal to the character below 0x10000, otherwise a surrogate pair |
| WinTypes.EncodeUtf16 | src/windows/wintypes.rs:205-206 | at least one unit per character, exactly one per character when all are below 0x10000 |
| WinTypes.DecodeEncodeUtf16 | src/windows/wintypes.rs:205-206 | decoding the encoding gives the string back |
| WinTypes.EncodeFromStr | src/windows/wintypes.rs:205-209 | the encoding followed by one 0 |
| WinTypes.EncodeFromStrBeforeNull | src/windows/wintypes.rs:193-209 | for a string without NUL, the prefix before the first 0 is its encoding and decodes to it |
| WinTypes.EncodeFromStrAscii | src/windows/wintypes.rs:205-209 | an ASCII string encodes to its character codes and a 0: length n + 1 |
| WinWrap.FromRid | src/windows/winwrap.rs:85-92 | UNKNOWN exactly for codes other than the three known ones |
| WinWrap.FromRidInvertsRidOf | src/windows/winwrap.rs:85-92 | each known kind comes from its own code and from no other |
| WinWrap.FlushBase | src/windows/winwrap.rs:766-769 | the base is at most the host tick and less than one period below it |
| WinWrap.NewTickWiden | src/windows/winwrap.rs:757-764 | starts at tick 0 with a base not above the host tick |
| WinWrap.Widen | src/windows/winwrap.rs:771-781 | always returns base + t. A non-decreasing tick keeps the base, and moves `last_tick` only after more than 1000 ms. A tick that went backwards re-bases from the host clock and becomes `last_tick` |
| WinWrap.WidenRunKeepsBase | src/windows/winwrap.rs:771-781 | along a non-decreasing run every output is the starting base plus the tick |
| WinWrap.WidenRunMonotone | src/windows/winwrap.rs:771-781 | along a non-decreasing run the outputs are non-decreasing |
| WinWrap.WidenKeepsLowBits | src/windows/winwrap.rs:766-781 | with a base on a 2^32 boundary, the widened tick's low 32 bits are the input tick |
| WinWrap.WidenFollowsHost | src/windows/winwrap.rs:766-781 | with period 2^32, a wrapped tick (and the first tick) widens to the host tick it came from |
| WinWrap.AsWrittenWidenDrifts | src/windows/winwrap.rs:756-769 | with the period u32::MAX that the code uses, host tick 2^32+5 read as 5 widens to 2^32+4 |
| WinWrap.HostModifiers | src/windows/winwrap.rs:993-995 | MOD_NOREPEAT is added exactly when repeat is off; other bits are kept |
| WinWrap.HotKeyCookie | src/windows/winwrap.rs:992 | the low half of the cookie is the low half of the modifiers; for modifiers below 2^16 the high half is the key |
| WinWrap.HotKeyCookieDecodes | src/windows/winwrap.rs:992 | the cookie's high half is the key and its low half the modifiers |
| WinWrap.HotKeyCookieInjective | src/windows/winwrap.rs:992 | distinct (modifiers, key) pairs get distinct cookies |
| WinWrap.RegisterHotKey | src/windows/winwrap.rs:985-1003 | succeeds exactly when the host does, returning the cookie; the conflict code maps to ShortcutConflict and every other failure to WinCore with its code |
| WinWrap.CookieIgnoresRepeat | src/windows/winwrap.rs:992-997 | the cookie is computed before MOD_NOREPEAT is added |
| WinWrap.NewHotKeyManager | src/windows/winwrap.rs:1019-1024 | both maps empty |
| WinWrap.Unbind | src/windows/winwrap.rs:1035-1038 | forgets the id and its cookie's callback; an unbound id changes nothing |
| WinWrap.Register | src/windows/winwrap.rs:1026-1045 | the old binding is always removed; on success the id maps to the cookie and the cookie to the callback; on failure the id stays unbound and the host error is returned |
| WinWrap.Unregister | src/windows/winwrap.rs:1047-1054 | an unbound id gives Ok and no change; a bound id is removed from both maps and the host's answer is returned |
| WinWrap.GetCallback | src/windows/winwrap.rs:1056-1058 | the callback stored under the cookie, if any |
| WinWrap.RegisterThenLookup | src/windows/winwrap.rs:1041-1058 | after a successful register, the id maps to the cookie, the cookie finds the callback, and other ids are untouched |
| WinWrap.FailedRegisterUnbinds | src/windows/winwrap.rs:1035-1041 | a failed register leaves the id unbound and its old callback gone |
| WinWrap.RegisterKeepsConsistent | src/windows/winwrap.rs:1026-1045 | when the new cookie is not held by another id, register keeps the two maps in agreement |
| WinWrap.UnregisterKeepsConsistent | src/windows/winwrap.rs:1047-1054 | unregister keeps the two maps in agreement |
| WinWrap.ConsistentBindingsHaveCallbacks | src/windows/winwrap.rs:1012-1058 | in agreeing maps every bound id's cookie finds a callback |
| WinWrap.UnregisterUndoesRegister | src/windows/winwrap.rs:1026-1054 | when no other binding holds the new cookie, unregistering right after a successful register leaves the manager as if the id had only been unbound |
| WinWrap.SharedCookieLosesCallback | src/windows/winwrap.rs:1026-1054 | when another binding already holds the new cookie, unregistering right after registering drops that binding's callback too, so the manager differs from the unbound one |
| WinProcessor.HandleId | src/windows/win_processor.rs:105 | `handle as u64`: non-negative handles keep their value, negative ones land at 2^63 and above |
| WinProcessor.HandleIdInjective | src/windows/win_processor.rs:105 | distinct handles get distinct controller ids |
| WinProcessor.InitDeviceControl | src/windows/win_processor.rs:98-106 | never locked in a monitor; remembers its position exactly for mice; no history |
| WinProcessor.DeviceOf | src/windows/win_processor.rs:154-163 | the device keeps the entry's handle and kind and gets the initial controller |
| WinProcessor.CollectDevices | src/windows/win_processor.rs:316-324 | only mice and HID devices are kept |
| WinProcessor.CollectDevicesMembers | src/windows/win_processor.rs:316-324 | a device is collected exactly when some mouse or HID entry whose info could be read produces it |
| WinProcessor.CollectAllRawDevices | src/windows/win_processor.rs:311-326 | fails exactly when the device list fails, with its error; per-device failures are dropped |
| WinProcessor.IndexMap | src/windows/win_processor.rs:204-211 | every key maps to a device with that handle, every handle is a key, and a repeated handle maps to its last position |
| WinProcessor.NewDeviceSet | src/windows/win_processor.rs:177-183 | empty and valid, no active device |
| WinProcessor.Active | src/windows/win_processor.rs:185-191 | the device at the active index, if that index is in range |
| WinProcessor.GetAndUpdateActive | src/windows/win_processor.rs:193-202 | the active device keeps it when its handle matches; otherwise a known handle becomes active and an unknown one clears it |
| WinProcessor.Rebuild | src/windows/win_processor.rs:204-213 | replaces the devices, rebuilds the index from them and clears the active device |
| WinProcessor.RebuildThenLookup | src/windows/win_processor.rs:193-213 | after a rebuild, a handle is found exactly when a new device has it, and the last such device is returned |
| WinProcessor.SetCtrl | src/windows/win_processor.rs:249-252 | replaces one controller and keeps the registry valid |
| WinProcessor.ToLogical | src/windows/win_processor.rs:347 | the quotient of `x * scale` by 100 truncated toward zero, for either sign: 100 times the result lies between 0 and `x * scale`, less than 100 away from it |
| WinProcessor.MonitorAreaFrom | src/windows/win_processor.rs:346-353 | each corner coordinate scaled to logical pixels, scale kept |
| WinProcessor.MonitorAreaFromUnscaled | src/windows/win_processor.rs:346-353 | at 100% the area is the rectangle itself |
| WinProcessor.MonitorAreaFromKeepsOrder | src/windows/win_processor.rs:346-353 | scaling keeps a well-formed rectangle well-formed |
| WinProcessor.ToPhysical | src/windows/win_processor.rs:355 | the quotient of `v * 100` by the scale truncated toward zero, for either sign: the scale times the result lies between 0 and `v * 100`, less than one scale away from it |
| WinProcessor.PhyPosFrom | src/windows/win_processor.rs:354-356 | each axis is the truncated quotient of 100 times the logical coordinate by the scale |
| WinProcessor.PhyPosFromUnscaled | src/windows/win_processor.rs:354-356 | at 100% a position is unchanged |
| WinProcessor.PhysicalOfLogicalBelow | src/windows/win_processor.rs:346-356 | going to logical pixels and back never overshoots a non-negative coordinate |
| WinProcessor.PhysicalOfLogicalAbove | src/windows/win_processor.rs:346-356 | for a negative coordinate, going to logical and back never lands below it or above 0 |
| WinProcessor.PhysicalOfLogicalWithinOne | src/windows/win_processor.rs:346-356 | at a scale of 100% or more, going to logical and back moves a coordinate at most one pixel toward 0 |
| WinProcessor.ToPhysicalMonotone | src/windows/win_processor.rs:355 | the back conversion keeps the order of coordinates |
| WinProcessor.PhyPosFromNearRect | src/windows/win_processor.rs:346-356 | at a scale of 100% or more, a logical position inside a monitor's scaled area maps back to within one pixel of the monitor's physical rectangle |
| Ints.TruncQuotientUnique | src/windows/win_processor.rs:347 | the truncated quotient is determined by the numerator and the divisor |
| WinProcessor.InRangeAreaScales | src/windows/win_processor.rs:354-356 | positions inside an area, and clamps into it, can be scaled back |
| WinProcessor.MonitorAreas | src/windows/win_processor.rs:399-403 | the monitor list converted one by one |
| WinProcessor.NewProcessor | src/windows/win_processor.rs:275-288 | empty registry, fresh relocator, both limiters fresh at 1000 ms |
| WinProcessor.Gate | src/windows/win_processor.rs:358-361 | passes when forced or allowed; only an unforced pass advances the limiter (the same gate opens `try_update_monitors`) |
| WinProcessor.TryUpdateDevices | src/windows/win_processor.rs:358-385 | refused: Ok(false) with no change. Failing list: its error. Otherwise Ok(true) with the registry rebuilt from the collected devices |
| WinProcessor.TryUpdateMonitors | src/windows/win_processor.rs:387-407 | refused: Ok(false) with no change. Failing list: its error. Otherwise Ok(true) with the relocator's monitors replaced |
| WinProcessor.RefusedRescansChangeNothing | src/windows/win_processor.rs:358-390 | an unforced rescan inside the rate window returns Ok(false) and changes nothing |
| WinProcessor.ResolveRelocator | src/windows/win_processor.rs:437-448 | a staged relocation is popped and returned in physical pixels; the stale flag is cleared only when a monitor update ran |
| WinProcessor.SecondResolveMovesNothing | src/windows/win_processor.rs:437-448 | a second resolve right after the first moves nothing |
| WinProcessor.OnMouseLowLevel | src/windows/win_processor.rs:238-254 | without an active device the position is adopted; otherwise the active device's controller goes through the position update |
| WinProcessor.HookKeepsSane | src/windows/win_processor.rs:238-254 | a position update keeps the processor invariant |
| WinProcessor.OnRawInput | src/windows/win_processor.rs:409-435 | failed data changes nothing. The tick is widened. An unknown device clears the active device and stops there. A known device becomes active, becomes the relocator's current mouse, and its relocation is resolved |
| WinProcessor.RawInputKeepsSane | src/windows/win_processor.rs:429-433 | a device switch keeps the processor invariant |
| Message.Check | src/message.rs:20-26 | Some(true) exactly when a signal is pending, None when the slot is empty and the sender alive, Some(false) when it is gone; the slot is emptied |
| Message.NewSignal | src/message.rs:29-32 | an empty slot with a live sender, so the first check finds nothing |
| Message.Send | src/message.rs:11-15 | after a send the next check reports a signal; the sender stays alive |
| Message.SendsCollapse | src/message.rs:9-32 | a second send into a full slot changes nothing, so any positive number of sends leaves the slot as one send does |
| Message.SendsThenCheckTwice | src/message.rs:9-32 | after repeated sends one check consumes the signal and the next finds nothing |
| Message.CheckClose | src/message.rs:82-84 | true exactly on a pending signal or a vanished sender |
| Message.SetupReactors | src/message.rs:39-54 | fresh channels: no close request, and the drain answers Restart without change |
| Message.DrainSpecMeaning | src/message.rs:93-101 | the drain answers Exit exactly when an Exit is queued, leaving what follows the first Exit; otherwise it empties the queue |
| Message.DrainStopsAtFirstExit | src/message.rs:93-101 | when the first Exit is at position k, the drain leaves exactly the entries after k |
| Message.DrainPending | src/message.rs:93-101 | the `try_recv` loop computes the reference drain |
| Message.RecvPendingMsg | src/message.rs:85-101 | only the pending queue changes, and what stays queued is a suffix of it |
| Message.RecvReturnsExitIffQueued | src/message.rs:85-101 | the non-blocking receive returns Exit exactly when an Exit is queued |
| Message.BlockingRecvReturnsExit | src/message.rs:86-100 | the blocking receive returns Exit exactly when the queue is disconnected and empty or holds an Exit |
| Message.ExitUi | src/message.rs:62-65 | after `exit_ui` both `check_close` and either receive see the exit |
| Message.CloseUi | src/message.rs:69-71 | `close_ui` leaves `check_close` as it was but the drain returns Exit |
| Message.RestartUi | src/message.rs:66-68 | `restart_ui` changes neither the drain's answer nor `check_close` |
| Message.RestartDrainEmpties | src/message.rs:93-101 | a drain that answers Restart has emptied the queue |
| App.MergeScannedDevices | src/gui/app.rs:66-77 | the scanned list reversed, every row unlocked, switched off and Disconnected |
| App.FirstReportIsEarliest | src/gui/app.rs:84-91 | the earliest report of an id is the one found, and none when the id is not reported |
| App.FindFirst | src/gui/app.rs:85-90 | the first row with the id, or past the end |
| App.UpdateDevicesStatus | src/gui/app.rs:79-92 | rows keep their data, lock and switch; each status is the earliest report of the row's id for the first row with it, Disconnected otherwise |
| App.StatusAfterReadings | src/gui/app.rs:80-91 | an unreported row is Disconnected; for an id reported twice the earlier report wins |
| App.WaitForRestart | src/gui/app.rs:16-38 | true at once when exiting. A queued Exit gives true and other queued messages are dropped. Then the first Exit or RestartUI to arrive decides; a closed channel gives true |
| App.FirstControlSkipsOthers | src/gui/app.rs:30-37 | the first Exit or RestartUI found is the earliest one, and none is found only when every message is discarded |

## Left out

- All Win32 calls are left out: device lists and device info, configuration-manager and
  HID queries, hooks, subclassing, timers, DPI awareness, monitor enumeration, cursor get
  and set, message boxes and mutexes. They are foreign calls. Their results enter the
  model as parameters: the device list (`RawDeviceEntry` with an `infoOk` flag), the
  monitor list, the host tick, the outcome of `RegisterHotKey`/`UnregisterHotKey`, and
  whether `get_rawinput_data` succeeded.
- The `GetMessageW` event loop, `handle_message`, the `G_PROCESSOR` singleton and
  `register_raw_devices` are left out: they are global state and the hook ABI. The model
  keeps their sequential effect, as `WinProcessor.OnMouseLowLevel` and
  `WinProcessor.OnRawInput`.
- The `Display` impls and logging are left out: they only format output.
- `delay_panic` is left out: it reads the wall clock and a `static mut`.
- `dispatch_ui_msg` is left out. It is the egui frame callback and sends viewport
  commands. The merge and status updates it calls are modelled.
- The UI code under `src/gui/components`, `src/gui/widget.rs` and the tray is left out: it
  is rendering and float layout.
- The `rawinput`, `iface`, `parents` and `hid` fields of `WinDevice` are left out. Only
  the handle, kind and controller are used by the modelled logic.
- The model takes `HRESULT_SHORTCUT_CONFLICT` to be 0x80070581
  (ERROR_HOTKEY_ALREADY_REGISTERED as an HRESULT). It also takes that name to be a
  constant; if it were not, Rust would read it as a binding pattern that matches every
  error.
- `keyboard_types::Modifiers` is reduced to the four flags the program reads: Ctrl, Meta,
  Alt and Shift. Its other flags are never set by the modelled code.
- The two threads and the blocking of `recv`/`recv_pending_msg` are left out. Channels are
  sequences and the close signal is a flag.
- Message.RecvPendingMsg: with `wait_one`, the model starts once the blocking receive has
  something to return: a queued message or a dropped sender.
- App.WaitForRestart: a wait that would still be blocked is reported as `None`.
- Message.ExitUi: the `unwrap` panic when the UI side has dropped its receiver is
  not modelled.
- `src/gui/app.rs` reads a `Message` channel that `src/message.rs` does not define (that
  file has the `UIPendingAction` channel). `App` therefore uses its own message type with
  Exit, RestartUI and every other message as one case.
- Utils.Allow: requires `tick + once_per` to fit in `u64`, where the Rust code would
  overflow.
- Utils.Reset: requires `next >= once_per` and a result that fits in `u64`, where the Rust
  code would underflow or overflow. `Utils.FreshLimiterCannotReset` states that a fresh
  limiter fails the first condition.
- WinProcessor.ToLogical: requires `x * scale` to fit in `i32` and `scale as i32` to be
  non-negative, where Rust would overflow.
- WinProcessor.ToPhysical: also requires a non-zero scale, where Rust would panic on
  division by zero.
- WinProcessor.ResolveRelocator: requires every monitor from the host to be in that
  range (`MonitorsInRange`). The same holds for `TryUpdateMonitors` and `OnRawInput`.
- WinWrap.Widen: requires the base and the host tick below 2^63 ms, so `accu_tick + t`
  never overflows `u64`.
- WinProcessor.NewProcessor: requires the host tick below 2^63 ms, for the same reason.
  `WinProcessor.OnRawInput` has the same requirement.
- WinProcessor.NewProcessor: its tick widener uses the corrected period 2^32, not
  `MAX_SHORT_TICK` = 2^32 − 1 as the source does (see Findings).
- WinProcessor.OnRawInput: widens the tick with the corrected period 2^32, not
  `MAX_SHORT_TICK` = 2^32 − 1 as the source does (see Findings).
- WinWrap.UnregisterUndoesRegister: holds only when no other binding already holds the new
  cookie. Otherwise unregistering also drops that binding's callback
  (`WinWrap.SharedCookieLosesCallback`).
- WinWrap.FlushBase: states only that the base is within one period below the host tick.
  That it is a multiple of the period is not stated.
- ShortcutText.ShortcutFromStrSpec: the model indexes characters. The Rust loop enumerates
  characters but slices at byte offsets, so the two agree on ASCII text only.
- ShortcutText.ShortcutRoundTrip: excludes the Windows key, because that shortcut does not
  round-trip in the source (`ShortcutText.MetaNeverRoundTrips`).
- Keyboard codes outside the 73 that `key_to_str` names are one `Other` case. egui keys
  are the 73 the program translates.

## Findings

| source | as written | input that shows it | evidently intended | confidence | as-written member | corrected member |
|---|---|---|---|---|---|---|
| src/windows/winwrap.rs:756,768 | `flush` rounds the host tick down to a multiple of `MAX_SHORT_TICK = u32::MAX` (2^32 − 1) | host tick 2^32 + 5, whose 32-bit tick is 5, widens to 2^32 + 4 after a flush | round to a multiple of 2^32, the period of the 32-bit tick, so the widened tick equals the host tick | not executed | WinWrap.AsWrittenWidenDrifts | WinWrap.WidenFollowsHost |

The rest of the model uses the corrected period: `WinProcessor.NewProcessor` and
`WinProcessor.OnRawInput` widen with `SHORT_TICK_PERIOD` = 2^32. `WinWrap.WidenKeepsLowBits`
also holds only for that period.
