/** Wire timestamps and the modular nanosecond clock of include/aoip/timer.h. */
module Timer {
  import opened MachineInt

  const NS_SEC: int := 1_000_000_000

  datatype Timestamp = Timestamp(secMsb: u16, secLsb: u32, ns: u32)

  function TstampToNs(ts: Timestamp): u64 {
    var sec := ts.secMsb * 16 + ts.secLsb;
    (sec * NS_SEC + ts.ns) % TWO_64
  }

  /** What section 5.3.3 of IEEE 1588-2008 makes of the same fields: 48-bit seconds. */
  function StandardNs(ts: Timestamp): int {
    (ts.secMsb * TWO_32 + ts.secLsb) * NS_SEC + ts.ns
  }

  function NsSub(a: u64, b: u64): u64 {
    SubU64(a, b)
  }

  /** Decoding never wraps and stays below 2^62, whatever arrives on the wire;
      it agrees with the standard exactly when the high seconds word is zero. */
  lemma TstampDecoding(ts: Timestamp)
    ensures TstampToNs(ts) == (ts.secMsb * 16 + ts.secLsb) * NS_SEC + ts.ns
    ensures TstampToNs(ts) < TWO_62
    ensures TstampToNs(ts) == StandardNs(ts) <==> ts.secMsb == 0
  {
    var sec := ts.secMsb * 16 + ts.secLsb;
    assert 0 <= sec <= 65535 * 16 + 0xFFFF_FFFF;
    assert sec * NS_SEC + ts.ns < TWO_62;
  }
}
