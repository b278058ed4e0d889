/** The minimum-delay filter that lib/ptpc.c keeps over the estimates of its samples. */
module DelayFilter {
  import opened MachineInt
  import opened PtpClock

  /** The comparison is unsigned, and a stored delay of zero counts as "unset". */
  function FilterStep(e: Estimate, s: Estimate): Estimate {
    if e.delay == 0 || AsU64(s.delay) <= AsU64(e.delay) then s else e
  }

  function Filter(e: Estimate, samples: seq<Estimate>): Estimate {
    if samples == [] then e
    else FilterStep(Filter(e, samples[..|samples| - 1]), samples[|samples| - 1])
  }

  /** The samples from `w` on are those after the last zero-delay sample. */
  ghost predicate WindowStart(samples: seq<Estimate>, w: nat) {
    && w <= |samples|
    && (w > 0 ==> samples[w - 1].delay == 0)
    && forall i | w <= i < |samples| :: samples[i].delay != 0
  }

  ghost function WindowOf(samples: seq<Estimate>): (w: nat)
    ensures WindowStart(samples, w)
  {
    if samples == [] || samples[|samples| - 1].delay == 0 then |samples|
    else WindowOf(samples[..|samples| - 1])
  }

  /** `b` is the latest of the samples from `w` on that attain the least delay, as unsigned. */
  ghost predicate LatestMinimum(samples: seq<Estimate>, w: nat, b: nat) {
    && w <= b < |samples|
    && (forall i | w <= i < |samples| :: AsU64(samples[b].delay) <= AsU64(samples[i].delay))
    && (forall i | b < i < |samples| :: AsU64(samples[b].delay) < AsU64(samples[i].delay))
  }

  /** Started from the zeroed context, the filter holds the latest minimum of the samples
      after the last zero-delay one; right after a zero-delay sample it holds that sample. */
  lemma {:induction false} FilterIsWindowMinimum(offset: i64, samples: seq<Estimate>, w: nat) returns (b: int)
    requires WindowStart(samples, w)
    ensures samples != [] ==> 0 <= b < |samples| && Filter(Estimate(0, offset), samples) == samples[b]
    ensures samples != [] && w == |samples| ==> b == |samples| - 1
    ensures w < |samples| ==> LatestMinimum(samples, w, b)
    ensures Filter(Estimate(0, offset), samples).delay == 0 <==> w == |samples|
    decreases samples
  {
    assert AsU64(0) == 0;
    hide AsU64;
    if samples == [] {
      b := -1;
    } else {
      var n := |samples| - 1;
      var init := samples[..n];
      var b' := FilterIsWindowMinimum(offset, init, if w <= n then w else WindowOf(init));
      b := if FilterStep(Filter(Estimate(0, offset), init), samples[n]) == samples[n] then n else b';
    }
  }

  ghost function DelayAfter(offset: i64, samples: seq<Estimate>, n: nat): u64
    requires n <= |samples|
  {
    AsU64(Filter(Estimate(0, offset), samples[..n]).delay)
  }

  ghost predicate NoRiseAt(offset: i64, samples: seq<Estimate>, i: nat)
    requires i < |samples|
  {
    DelayAfter(offset, samples, i + 1) <= DelayAfter(offset, samples, i)
  }

  ghost predicate ZeroStays(samples: seq<Estimate>, i: nat)
    requires 1 <= i < |samples|
  {
    samples[i - 1].delay == 0 ==> samples[i].delay == 0
  }

  /** "The stored delay never rises once a sample is in" is false in general; it holds exactly
      when no zero-delay sample is followed by a non-zero one. */
  lemma DelayNeverRisesIff(offset: i64, samples: seq<Estimate>)
    ensures (forall i | 1 <= i < |samples| :: NoRiseAt(offset, samples, i))
       <==> (forall i | 1 <= i < |samples| :: ZeroStays(samples, i))
  {
    forall i | 1 <= i < |samples|
      ensures NoRiseAt(offset, samples, i) <==> ZeroStays(samples, i)
    {
      var init := samples[..i];
      assert samples[..i + 1][..i] == init;
      var w := WindowOf(init);
      var _ := FilterIsWindowMinimum(offset, init, w);
      assert w == |init| <==> samples[i - 1].delay == 0;
    }
  }
}
