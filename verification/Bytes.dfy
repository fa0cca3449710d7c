/** Octets of the stream, the character classes of the parser's lookup tables, and its words. */
module Bytes {

  type byte = c: int | 0 <= c < 256

  const TAB: byte := 9
  const LF: byte := 10
  const CR: byte := 13
  const SP: byte := 32
  const COMMA: byte := 44
  const COLON: byte := 58
  const SEMICOLON: byte := 59

  /** `c >= 'A' && c <= 'Z' ? c | 0x20 : c` */
  function Lower(c: byte): byte {
    if 65 <= c <= 90 then c + 32 else c
  }

  /** `c | 0x20` on an octet */
  function SetBit5(c: byte): byte {
    if c / 32 % 2 == 0 then c + 32 else c
  }

  predicate IsDigit(c: byte) {
    48 <= c <= 57
  }

  predicate IsHex(c: byte) {
    48 <= c <= 57 || 65 <= c <= 70 || 97 <= c <= 102
  }

  /** The value of one hexadecimal digit. */
  function HexValue(c: byte): nat
    requires IsHex(c)
  {
    if c <= 57 then c - 48 else if c <= 70 then c - 55 else c - 87
  }

  /** Entry 1 of the table of header_field_general: the token characters of RFC 7230, and space. */
  predicate IsNameByte(c: byte) {
    || c == 32 || c == 33 || 35 <= c <= 39 || c == 42 || c == 43 || c == 45 || c == 46
    || 48 <= c <= 57 || 65 <= c <= 90 || 94 <= c <= 122 || c == 124 || c == 126
  }

  /** Entries 1 and 2 of the tables of header_value, header_value_connection_token and header_value_te_token. */
  predicate IsValueByte(c: byte) {
    c == 9 || 32 <= c <= 126 || 128 <= c
  }

  /** Entry 1 of the table of url_path. */
  predicate IsPathByte(c: byte) {
    c == 9 || c == 12 || c == 33 || c == 34 || 36 <= c <= 62 || 64 <= c <= 126 || 128 <= c
  }

  // The words of the blobs, each without the letters that earlier nodes have matched.
  const W_HTTP: seq<byte> := [72, 84, 84, 80, 47]                                 // HTTP/
  const W_AD: seq<byte> := [65, 68]                                               // AD
  const W_TP: seq<byte> := [84, 80, 47]                                           // TP/
  const W_ON: seq<byte> := [111, 110]                                             // on
  const W_ECTION: seq<byte> := [101, 99, 116, 105, 111, 110]                      // ection
  const W_ENT_LENGTH: seq<byte> := [101, 110, 116, 45, 108, 101, 110, 103, 116, 104]  // ent-length
  const W_ROXY_CONNECTION: seq<byte> :=
    [114, 111, 120, 121, 45, 99, 111, 110, 110, 101, 99, 116, 105, 111, 110]      // roxy-connection
  const W_RANSFER_ENCODING: seq<byte> :=
    [114, 97, 110, 115, 102, 101, 114, 45, 101, 110, 99, 111, 100, 105, 110, 103] // ransfer-encoding
  const W_PGRADE: seq<byte> := [112, 103, 114, 97, 100, 101]                      // pgrade
  const W_LOSE: seq<byte> := [108, 111, 115, 101]                                 // lose
  const W_EEP_ALIVE: seq<byte> := [101, 101, 112, 45, 97, 108, 105, 118, 101]     // eep-alive
  const W_CHUNKED: seq<byte> := [99, 104, 117, 110, 107, 101, 100]                // chunked
}
