/** The result shapes shared by the other modules. */
module Outcomes {
  datatype Option<+T> = None | Some(value: T)

  datatype Result<+T, +E> = Ok(value: T) | Err(error: E)

  /** One octet of a packet, of a bitmap or of a UTF-8 text. */
  type Byte = bv8
  type Bytes = seq<Byte>

  // ---------------------------------------------------------------------------------------------
  // UTF-8 (section 3 of RFC 3629)
  // ---------------------------------------------------------------------------------------------

  predicate Continues(b: Byte, low: Byte, high: Byte) {
    low <= b <= high
  }

  predicate Trails(s: Bytes, from: nat, to: nat) {
    to <= |s| && forall i :: from <= i < to ==> Continues(s[i], 0x80, 0xBF)
  }

  /** How many octets the first character takes, or zero when they encode none. */
  function Width(s: Bytes): (n: nat)
    requires s != []
    ensures n <= |s|
  {
    var b := s[0];
    if b < 0x80 then 1
    else if 0xC2 <= b <= 0xDF then if Trails(s, 1, 2) then 2 else 0
    else if 0xE0 <= b <= 0xEF then
      var low: Byte := if b == 0xE0 then 0xA0 else 0x80;
      var high: Byte := if b == 0xED then 0x9F else 0xBF;
      if Trails(s, 1, 3) && Continues(s[1], low, high) then 3 else 0
    else if 0xF0 <= b <= 0xF4 then
      var low: Byte := if b == 0xF0 then 0x90 else 0x80;
      var high: Byte := if b == 0xF4 then 0x8F else 0xBF;
      if Trails(s, 1, 4) && Continues(s[1], low, high) then 4 else 0
    else 0
  }

  /** The octets are the encoding of some text. */
  predicate Utf8(s: Bytes) {
    s == [] || (Width(s) > 0 && Utf8(s[Width(s)..]))
  }
}
