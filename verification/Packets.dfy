/** TCP segments (tcp.h, tcp.c). Absent data and empty data are one value: a parsed packet has NULL data exactly
    when nothing follows the header, and no handler tells "" from NULL in any other way. */
module Packets {
  datatype Flags = Flags(ack: bool, fin: bool, rst: bool, syn: bool) {
    /** The flag byte: ACK=1, FIN=2, RST=4, SYN=8. */
    function Code(): int {
      (if ack then 1 else 0) + (if fin then 2 else 0) + (if rst then 4 else 0) + (if syn then 8 else 0)
    }
  }

  const ACK := Flags(true, false, false, false)
  const FIN := Flags(false, true, false, false)
  const FIN_ACK := Flags(true, true, false, false)
  const RST := Flags(false, false, true, false)
  const SYN := Flags(false, false, false, true)
  const SYN_ACK := Flags(true, false, false, true)

  datatype Packet = Packet(srcPort: int, dstPort: int, seqNum: int, ackNum: int,
                           flags: Flags, checksum: int, data: string)

  /** calc_checksum */
  function Checksum(p: Packet): int {
    p.srcPort + p.dstPort + p.seqNum + p.ackNum + p.flags.Code()
  }

  /** construct_packet, on the fields it reads. */
  function MakePacket(srcPort: int, dstPort: int, seqNum: int, ackNum: int, flags: Flags, data: string): Packet {
    Packet(srcPort, dstPort, seqNum, ackNum, flags, srcPort + dstPort + seqNum + ackNum + flags.Code(), data)
  }
}
