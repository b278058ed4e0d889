/** The clock arithmetic of include/aoip/ptpc.h, with C's mixed signed and unsigned types. */
module PtpClock {
  import opened MachineInt

  /** The four timestamps of one delay request-response exchange. */
  datatype Sample = Sample(t1: u64, t2: u64, t3: u64, t4: u64)

  /** What the context remembers: `mean_path_delay` and `ptp_offset`. */
  datatype Estimate = Estimate(delay: i64, offset: i64)

  function MeanPathDelay(s: Sample): i64 {
    var d1 := WrapI64(AsI64(s.t2) - AsI64(s.t3));
    var d2 := WrapI64(AsI64(s.t4) - AsI64(s.t1));
    Half(WrapI64(d1 + d2))
  }

  function PtpOffset(t1: u64, t2: u64, delay: i64): i64 {
    AsI64(SubU64(SubU64(t2, t1), AsU64(delay)))
  }

  function PtpTime(ts: u64, offset: i64): u64 {
    SubU64(ts, AsU64(offset))
  }

  /** The estimate a sample would store. */
  function Of(s: Sample): Estimate {
    var delay := MeanPathDelay(s);
    Estimate(delay, PtpOffset(s.t1, s.t2, delay))
  }

  ghost predicate Below62(s: Sample) {
    s.t1 < TWO_62 && s.t2 < TWO_62 && s.t3 < TWO_62 && s.t4 < TWO_62
  }

  /** Below 2^62 nothing overflows: the C expressions are the integer ones. */
  lemma ArithmeticIsExact(s: Sample)
    requires Below62(s)
    ensures Of(s).delay == Half(s.t2 - s.t3 + s.t4 - s.t1)
    ensures Of(s).offset == s.t2 - s.t1 - Of(s).delay
    ensures -TWO_63 < s.t2 - s.t3 + s.t4 - s.t1 < TWO_63
  {
    assert MeanPathDelay(s) == Half(s.t2 - s.t3 + s.t4 - s.t1);
  }

  /** `ptp_time` subtracts the offset modulo 2^64: an offset that is wrong by `e` shows
      a time that is wrong by `-e`. */
  lemma PtpTimeError(ts: u64, offset: i64, theta: int)
    ensures PtpTime(ts, offset) == ((ts - theta) - (offset - theta)) % TWO_64
  {
    assert PtpTime(ts, offset) in {ts - offset, ts - offset + TWO_64, ts - offset - TWO_64};
  }

  /** One sample pins the offset down to its own delay. `lo` and `hi` bound the true offset
      of the local clock: the master stamped t1 no later than the instant the local clock
      showed t3, and t4 no earlier than it. */
  lemma SampleBound(s: Sample, lo: int, hi: int)
    requires Below62(s) && s.t3 <= s.t2
    requires s.t1 + lo <= s.t3 <= s.t4 + hi
    ensures lo - Of(s).delay <= Of(s).offset <= hi + Of(s).delay + 1
  {
    ArithmeticIsExact(s);
  }

  /** If moreover the master stamped t4 no later than `lag` after the instant the local clock showed
      t2, the offset is not below the true one by more than half of `lag`. */
  lemma SampleNotBelow(s: Sample, lo: int, hi: int, lag: nat)
    requires Below62(s) && s.t3 <= s.t2
    requires s.t1 + lo <= s.t3 <= s.t4 + hi && s.t4 + lo <= s.t2 + lag
    ensures 2 * lo - lag - (if lo == hi then 0 else 1) <= 2 * Of(s).offset
  {
    ArithmeticIsExact(s);
  }

  /** A genuine exchange with forward delay f and return delay r over a clock offset theta:
      the delay is the mean, the offset is wrong by half the asymmetry, up to one unit of
      rounding, and exactly right when the path is symmetric. */
  lemma GenuineExchange(s: Sample, f: nat, r: nat, theta: int)
    requires Below62(s)
    requires s.t2 == s.t1 + f + theta && s.t4 == s.t3 - theta + r
    ensures Of(s).delay == (f + r) / 2
    ensures f - r <= 2 * (Of(s).offset - theta) <= f - r + 1
    ensures f == r ==> Of(s).offset == theta && PtpTime(s.t2, Of(s).offset) == s.t1 + f
  {
    ArithmeticIsExact(s);
    PtpTimeError(s.t2, Of(s).offset, theta);
  }
}
