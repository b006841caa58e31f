/** How a received UDP datagram is told apart: STUN first, then by its first byte. */
module Datagrams {
  import opened Bytes

  const PACKET_TEXT: byte := 0x01
  const PACKET_AUDIO: byte := 0x02
  const PACKET_SCREEN: byte := 0x03
  const PACKET_FILE: byte := 0x04
  const PACKET_PING: byte := 0xFF
  const MAGIC_COOKIE: int := 0x2112A442

  datatype Datagram =
    | Empty
    | Stun(message: seq<byte>)
    | Ping
    | Text(payload: seq<byte>)
    | Audio(payload: seq<byte>)
    | Screen(payload: seq<byte>)
    | File(payload: seq<byte>)
    | Unknown

  predicate LooksLikeStun(data: seq<byte>) {
    |data| >= 20 && Read32(data[4..8]) == MAGIC_COOKIE
  }

  function Classify(data: seq<byte>): Datagram {
    if |data| < 1 then Empty
    else if LooksLikeStun(data) then Stun(data)
    else
      var payload := data[1..];
      if data[0] == PACKET_PING then Ping
      else if data[0] == PACKET_TEXT then Text(payload)
      else if data[0] == PACKET_AUDIO then Audio(payload)
      else if data[0] == PACKET_SCREEN then Screen(payload)
      else if data[0] == PACKET_FILE then File(payload)
      else Unknown
  }
}
