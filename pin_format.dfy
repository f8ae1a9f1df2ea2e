/**
 * The PIN format test shared by first-time setup and the change-PIN dialog:
 * exactly four characters, every one a digit. `str.isdigit` is modelled on
 * the ASCII digits '0'..'9' only.
 */
module PinFormat {

  /** The PIN length both dialogs demand. */
  const PIN_LENGTH: nat := 4

  predicate IsAsciiDigit(c: char) {
    '0' <= c <= '9'
  }

  /** Every character of `s` is a digit (vacuously true of the empty string). */
  function AllDigits(s: string): (r: bool)
    ensures r <==> forall i :: 0 <= i < |s| ==> IsAsciiDigit(s[i])
  {
    if s == [] then true else IsAsciiDigit(s[0]) && AllDigits(s[1..])
  }

  /** Python's `s.isdigit()`: false on the empty string, else every character a digit. */
  function IsDigitString(s: string): (r: bool)
    ensures r <==> |s| > 0 && forall i :: 0 <= i < |s| ==> IsAsciiDigit(s[i])
  {
    |s| > 0 && AllDigits(s)
  }

  /** The condition under which setup and change-PIN accept a new PIN. */
  function IsValidPin(pin: string): (ok: bool)
    ensures ok <==> |pin| == PIN_LENGTH && forall i :: 0 <= i < |pin| ==> IsAsciiDigit(pin[i])
  {
    IsDigitString(pin) && |pin| == PIN_LENGTH
  }
}
