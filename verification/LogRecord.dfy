/** The 16-byte record: a header word packing type, severity and tick, and a payload word. */
module LogRecord {

  datatype Record = Record(header: bv64, payload: bv64)

  const TICK_MASK: bv64 := 0x07FF_FFFF_FFFF_FFFF

  /** A record of the given 2-bit type and 3-bit severity, stamped with the low 59 bits of ticks. */
  function MakeRaw(kind: bv64, severity: bv64, ticks: bv64, payload: bv64): Record {
    Record((kind << 62) | (severity << 59) | (ticks & TICK_MASK), payload)
  }

  function Kind(r: Record): bv64 { r.header >> 62 }

  function Severity(r: Record): bv64 { (r.header >> 59) & 7 }

  function Ticks(r: Record): bv64 { r.header & TICK_MASK }

  /** What is packed comes back: the type, the severity, the payload, and the tick when it is below 2^59. */
  lemma UnpackPacked(kind: bv64, severity: bv64, ticks: bv64, payload: bv64)
    requires kind < 4 && severity < 8
    ensures Kind(MakeRaw(kind, severity, ticks, payload)) == kind
    ensures Severity(MakeRaw(kind, severity, ticks, payload)) == severity
    ensures MakeRaw(kind, severity, ticks, payload).payload == payload
    ensures Ticks(MakeRaw(kind, severity, ticks, payload)) == ticks <==> ticks < 0x0800_0000_0000_0000
  {
  }

  /** Every header is the packing of what is read from it. */
  lemma PackUnpacked(r: Record)
    ensures MakeRaw(Kind(r), Severity(r), Ticks(r), r.payload) == r
    ensures Kind(r) < 4 && Severity(r) < 8 && Ticks(r) < 0x0800_0000_0000_0000
  {
  }
}
