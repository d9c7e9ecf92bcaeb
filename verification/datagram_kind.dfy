/** Classification of datagrams by their outer envelope and magic. */
module DatagramKinds {
  import opened Common

  datatype Class = Realtime | Reliable {
    function Other(): Class { if Realtime? then Reliable else Realtime }
  }

  const MAX_RELIABLE_DATAGRAM := 1200 - (4 + 8 + 8 + 16)
  const MAX_REALTIME_DATAGRAM := 2048

  const DMPU: seq<Byte> := [0x44, 0x4D, 0x50, 0x55]
  const DUR1: seq<Byte> := [0x44, 0x55, 0x52, 0x31]
  const DPG1: seq<Byte> := [0x44, 0x50, 0x47, 0x31]
  const DPF1: seq<Byte> := [0x44, 0x50, 0x46, 0x31]

  /** Length of the group header of a fan-out envelope, or 0 when `bytes` is none. */
  function PeerGroupHeader(bytes: seq<Byte>): (header: nat)
    ensures header != 0 ==> 21 <= header && header + 58 <= |bytes| <= header + 1158
  {
    if |bytes| < 21 || |bytes| > 1227 || bytes[..4] != DPG1 || bytes[12] == 0 || bytes[12] > 7 then 0
    else
      var header := 13 + bytes[12] * 8;
      if header + 58 <= |bytes| <= header + 1158 then header else 0
  }

  /** An envelope with two nonzero 64-bit peer numbers around a nonempty payload. */
  predicate IsPeerTunnel(bytes: seq<Byte>) {
    && 20 < |bytes| <= 1220
    && bytes[..4] == DPF1
    && (exists i :: 4 <= i < 12 && bytes[i] != 0)
    && (exists i :: 12 <= i < 20 && bytes[i] != 0)
  }

  /** The traffic class of a datagram; `None` when it is invalid. */
  function ClassOf(bytes: seq<Byte>): (kind: Option<Class>)
    ensures kind.Some? ==> 38 <= |bytes| <= MAX_REALTIME_DATAGRAM
    decreases |bytes|
  {
    var header := PeerGroupHeader(bytes);
    if header != 0 then
      if bytes[header..][..4] == DMPU then Some(Realtime) else None
    else if IsPeerTunnel(bytes) then
      // Exactly one envelope.
      var inner := bytes[20..];
      if IsPeerTunnel(inner) then None else ClassOf(inner)
    else if 58 <= |bytes| <= MAX_REALTIME_DATAGRAM && bytes[..4] == DMPU then Some(Realtime)
    else if 38 <= |bytes| <= MAX_RELIABLE_DATAGRAM && bytes[..4] == DUR1 then Some(Reliable)
    else None
  }
}
