/** The error kinds the modelled operations can report. */
module Errors {
  import opened Ints

  datatype Error =
      /** `RegisterHotKey` refused: the key combination is already taken. */
      ShortcutConflict
      /** Any other Win32 failure, with its `HRESULT`. */
    | WinCore(code: i32)
      /** A Win32 call that failed without an error code. */
    | WinUnknown
}
