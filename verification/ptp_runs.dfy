/** Whole runs of the PTP slave: any number of loops, polls, losses, resets and repeated
    responses, over one context that keeps its estimate throughout. */
module PtpRuns {
  import opened MachineInt
  import opened Timer
  import opened PtpClock
  import opened DelayFilter
  import opened PtpSlave

  /** A loop starts with a fresh sync context, or an iteration polls the sockets. */
  datatype Event = Start(now: u64) | Polled(p: Poll)

  function Apply(s: Slave, e: Event): Slave {
    match e
    case Start(now) => Begin(s, now)
    case Polled(p) => PollStep(s, p)
  }

  function Play(s: Slave, es: seq<Event>): Slave {
    if es == [] then s else Apply(Play(s, es[..|es| - 1]), es[|es| - 1])
  }

  function CountedBy(s: Slave, e: Event): seq<Sample> {
    match e
    case Start(_) => []
    case Polled(p) => Counted(s, p)
  }

  /** All samples counted in the run, in order. */
  function Heard(s: Slave, es: seq<Event>): seq<Sample> {
    if es == [] then []
    else Heard(s, es[..|es| - 1]) + CountedBy(Play(s, es[..|es| - 1]), es[|es| - 1])
  }

  function Estimates(samples: seq<Sample>): seq<Estimate> {
    seq(|samples|, i requires 0 <= i < |samples| => Of(samples[i]))
  }

  lemma Unfold(s: Slave, es: seq<Event>, n: nat)
    requires n < |es|
    ensures Play(s, es[..n + 1]) == Apply(Play(s, es[..n]), es[n])
    ensures Heard(s, es[..n + 1]) == Heard(s, es[..n]) + CountedBy(Play(s, es[..n]), es[n])
  {
    assert es[..n + 1][..n] == es[..n];
  }

  lemma PlayNothing(s: Slave)
    ensures Play(s, []) == s && Heard(s, []) == []
  {
  }

  lemma EstimateStep(s: Slave, e: Event)
    ensures var now := CountedBy(s, e);
            Apply(s, e).estimate == if now == [] then s.estimate else FilterStep(s.estimate, Of(now[0]))
  {
  }

  /** The context's estimate is the filter over the samples of the whole run, across loops. */
  lemma {:induction false} EstimateIsFiltered(s: Slave, es: seq<Event>)
    ensures Play(s, es).estimate == Filter(s.estimate, Estimates(Heard(s, es)))
  {
    if es != [] {
      var n := |es| - 1;
      var init, last := es[..n], es[n];
      EstimateIsFiltered(s, init);
      EstimateStep(Play(s, init), last);
      var now := CountedBy(Play(s, init), last);
      FilterOneMore(s.estimate, Heard(s, init), now);
    }
  }

  lemma FilterOneMore(e: Estimate, samples: seq<Sample>, now: seq<Sample>)
    requires |now| <= 1
    ensures Filter(e, Estimates(samples + now))
         == if now == [] then Filter(e, Estimates(samples)) else FilterStep(Filter(e, Estimates(samples)), Of(now[0]))
  {
    if now == [] {
      assert samples + now == samples;
    } else {
      var all := Estimates(samples + now);
      assert all[..|all| - 1] == Estimates(samples);
    }
  }

  // ---------- the error bound ----------

  function FirstReading(e: Event): u64 {
    match e case Start(now) => now case Polled(p) => p.now
  }

  function LastReading(e: Event): u64 {
    match e case Start(now) => now case Polled(p) => p.sent
  }

  /** The local clock is monotonic and below 2^62 ns. */
  ghost predicate Monotonic(es: seq<Event>) {
    && (forall n | 0 <= n < |es| :: LastReading(es[n]) < TWO_62)
    && (forall n | 0 <= n < |es| && es[n].Polled? :: es[n].p.now <= es[n].p.arrival <= es[n].p.sent)
    && (forall n | 0 < n < |es| :: LastReading(es[n - 1]) <= FirstReading(es[n]))
  }

  /** The true offset of the local clock lies between lo and hi whenever it matters: an accepted
      Follow_Up does not carry a time later than the master's when t3 is read just after
      it, and an accepted Delay_Resp does not carry a time earlier than the master's at t3. */
  ghost predicate Truthful(s: Slave, e: Event, lo: int, hi: int) {
    e.Polled? && !e.p.event.RecvFailed? ==>
      var s1 := EventStep(s, e.p);
      && (TakesFollowUp(s1, e.p) ==> TstampToNs(e.p.general.msg.tstamp) + lo <= e.p.sent)
      && (TakesDelayResp(s1, e.p) ==> s1.sync.t3 <= TstampToNs(e.p.general.msg.tstamp) + hi)
  }

  ghost predicate Environment(s: Slave, es: seq<Event>, lo: int, hi: int) {
    Monotonic(es) && forall n | 0 <= n < |es| :: Truthful(Play(s, es[..n]), es[n], lo, hi)
  }

  ghost predicate GoodSample(x: Sample, lo: int, hi: int) {
    Below62(x) && x.t3 <= x.t2 && x.t1 + lo <= x.t3 <= x.t4 + hi
  }

  /** While a response is awaited, t1 and t3 are those of one honest request. */
  ghost predicate Pending(y: SyncContext, reading: u64, lo: int) {
    y.state.FollowedUp? ==> y.t1 < TWO_62 && y.t1 + lo <= y.t3 <= reading
  }

  lemma {:induction false} EnvironmentPrefix(s: Slave, es: seq<Event>, lo: int, hi: int, n: nat)
    requires Environment(s, es, lo, hi) && n <= |es|
    ensures Environment(s, es[..n], lo, hi)
  {
    forall m | 0 <= m < n ensures Truthful(Play(s, es[..n][..m]), es[..n][m], lo, hi) {
      assert es[..n][..m] == es[..m];
    }
  }

  lemma GoodStep(s: Slave, e: Event, reading: u64, lo: int, hi: int)
    requires Pending(s.sync, reading, lo) && Truthful(s, e, lo, hi)
    requires reading <= FirstReading(e) && LastReading(e) < TWO_62
    requires e.Polled? ==> e.p.now <= e.p.arrival <= e.p.sent
    ensures Pending(Apply(s, e).sync, LastReading(e), lo)
    ensures forall x | x in CountedBy(s, e) :: GoodSample(x, lo, hi)
  {
    if e.Polled? {
      var s1 := EventStep(s, e.p);
      assert Pending(s1.sync, e.p.sent, lo);
      if e.p.general.Packet? {
        TstampDecoding(e.p.general.msg.tstamp);
      }
    }
  }

  lemma {:induction false} SamplesAreGood(s: Slave, es: seq<Event>, lo: int, hi: int)
    requires s.sync.state.Init? && Environment(s, es, lo, hi)
    ensures forall x | x in Heard(s, es) :: GoodSample(x, lo, hi)
    ensures Pending(Play(s, es).sync, if es == [] then 0 else LastReading(es[|es| - 1]), lo)
    decreases es
  {
    if es != [] {
      var n := |es| - 1;
      EnvironmentPrefix(s, es, lo, hi, n);
      SamplesAreGood(s, es[..n], lo, hi);
      GoodStep(Play(s, es[..n]), es[n], if n == 0 then 0 else LastReading(es[n - 1]), lo, hi);
    }
  }

  /** In every reachable state after the first sample, whatever the poll schedule, losses,
      resets and repeated responses, the estimated offset is off by no more than the stored
      delay plus one unit of rounding. */
  lemma {:induction false} OffsetWithinDelay(s: Slave, es: seq<Event>, lo: int, hi: int)
    requires s.estimate.delay == 0 && s.sync.state.Init?
    requires Environment(s, es, lo, hi)
    requires Heard(s, es) != []
    ensures var e := Play(s, es).estimate; lo - e.delay <= e.offset <= hi + e.delay + 1
  {
    var samples := Heard(s, es);
    SamplesAreGood(s, es, lo, hi);
    EstimateIsFiltered(s, es);
    var readings := Estimates(samples);
    var b := FilterIsWindowMinimum(s.estimate.offset, readings, WindowOf(readings));
    assert samples[b] in samples;
    SampleBound(samples[b], lo, hi);
  }

  /** So `ptp_time`, asked at any local time `ts` while the true offset is `theta`, shows the
      master's time with an error of at most that much. */
  lemma {:induction false} PtpTimeWithinDelay(s: Slave, es: seq<Event>, lo: int, hi: int, ts: u64, theta: int)
      returns (err: int)
    requires s.estimate.delay == 0 && s.sync.state.Init?
    requires Environment(s, es, lo, hi)
    requires Heard(s, es) != [] && lo <= theta <= hi
    ensures PtpTime(ts, Play(s, es).estimate.offset) == (ts - theta + err) % TWO_64
    ensures var delay := Play(s, es).estimate.delay; lo - hi - delay - 1 <= err <= hi - lo + delay
  {
    OffsetWithinDelay(s, es, lo, hi);
    var e := Play(s, es).estimate;
    err := theta - e.offset;
    PtpTimeError(ts, e.offset, theta);
  }

  // ---------- responses that do not come from the future ----------

  /** An accepted Delay_Resp carries no time later than the master's when it is read, which is at most
      `lag` after the poll's reading t2. */
  ghost predicate Causal(s: Slave, e: Event, lo: int, lag: nat) {
    e.Polled? && !e.p.event.RecvFailed? ==>
      TakesDelayResp(EventStep(s, e.p), e.p) ==> TstampToNs(e.p.general.msg.tstamp) + lo <= e.p.arrival + lag
  }

  ghost predicate AllCausal(s: Slave, es: seq<Event>, lo: int, lag: nat) {
    forall n | 0 <= n < |es| :: Causal(Play(s, es[..n]), es[n], lo, lag)
  }

  lemma CausalStep(s: Slave, e: Event, lo: int, lag: nat)
    requires Causal(s, e, lo, lag)
    ensures forall x | x in CountedBy(s, e) :: x.t4 + lo <= x.t2 + lag
  {
  }

  lemma {:induction false} CausalPrefix(s: Slave, es: seq<Event>, lo: int, lag: nat, n: nat)
    requires AllCausal(s, es, lo, lag) && n <= |es|
    ensures AllCausal(s, es[..n], lo, lag)
  {
    forall m | 0 <= m < n ensures Causal(Play(s, es[..n][..m]), es[..n][m], lo, lag) {
      assert es[..n][..m] == es[..m];
    }
  }

  lemma {:induction false} SamplesAreCausal(s: Slave, es: seq<Event>, lo: int, lag: nat)
    requires AllCausal(s, es, lo, lag)
    ensures forall x | x in Heard(s, es) :: x.t4 + lo <= x.t2 + lag
  {
    hide Play, Causal, CountedBy;
    if es != [] {
      var n := |es| - 1;
      CausalPrefix(s, es, lo, lag, n);
      SamplesAreCausal(s, es[..n], lo, lag);
      CausalStep(Play(s, es[..n]), es[n], lo, lag);
    }
  }

  /** Then the estimated offset is never below the true one by more than half of `lag`, in any
      reachable state: what is left of `OffsetWithinDelay` is its upper end. */
  lemma {:induction false} OffsetNotBelow(s: Slave, es: seq<Event>, lo: int, hi: int, lag: nat)
    requires s.estimate.delay == 0 && s.sync.state.Init?
    requires Environment(s, es, lo, hi) && AllCausal(s, es, lo, lag)
    requires Heard(s, es) != []
    ensures 2 * lo - lag - (if lo == hi then 0 else 1) <= 2 * Play(s, es).estimate.offset
  {
    var samples := Heard(s, es);
    SamplesAreGood(s, es, lo, hi);
    SamplesAreCausal(s, es, lo, lag);
    EstimateIsFiltered(s, es);
    var readings := Estimates(samples);
    var b := FilterIsWindowMinimum(s.estimate.offset, readings, WindowOf(readings));
    assert samples[b] in samples;
    SampleNotBelow(samples[b], lo, hi, lag);
  }

  /** So `ptp_time` is behind the master by at most the stored delay plus one, and for a constant
      true offset ahead of it by at most half of `lag`: with responses stamped before t2, never. */
  lemma {:induction false} PtpTimeNeverAhead(s: Slave, es: seq<Event>, lo: int, hi: int, lag: nat, ts: u64, theta: int)
      returns (err: int)
    requires s.estimate.delay == 0 && s.sync.state.Init?
    requires Environment(s, es, lo, hi) && AllCausal(s, es, lo, lag)
    requires Heard(s, es) != [] && lo <= theta <= hi
    ensures PtpTime(ts, Play(s, es).estimate.offset) == (ts - theta + err) % TWO_64
    ensures lo - hi - Play(s, es).estimate.delay - 1 <= err
    ensures 2 * err <= 2 * (hi - lo) + lag + (if lo == hi then 0 else 1)
  {
    OffsetNotBelow(s, es, lo, hi, lag);
    err := theta - Play(s, es).estimate.offset;
    OffsetWithinDelay(s, es, lo, hi);
    PtpTimeError(ts, Play(s, es).estimate.offset, theta);
  }

  // ---------- the bound is attained ----------

  const PowerOn: Slave := Slave(0, Estimate(0, 0), SyncContext(Init, 0, 0, 0, 0, 0, 0, 0, 0))
  const Zero: Timestamp := Timestamp(0, 0, 0)

  function Header(msgType: u8, ts: Timestamp): Message {
    Message(2, 0, msgType, 0, 0, 0, ts)
  }

  /** A Sync with its Follow_Up at time 0, and a response to it polled at `t2` and stamped `t4`. */
  const Request: Poll := Poll(0, 0, Packet(Header(MSG_SYNC, Zero)), Packet(Header(MSG_FOLLOW_UP, Zero)), Sent, 0)

  function Response(t2: u64, t4: Timestamp): Poll {
    Poll(t2, t2, NoPacket, Packet(Header(MSG_DELAY_RESP, t4)), Sent, t2)
  }

  const Awaiting: Slave := PowerOn.(sync := PowerOn.sync.(state := FollowedUp))

  /** An exchange is open and its request went out at time 0. */
  predicate Open(s: Slave) {
    s.serverId == 0 && s.sync.state.FollowedUp? && s.sync.seqId == 0 && s.sync.t1 == 0 && s.sync.t3 == 0
  }

  lemma RequestStep()
    ensures PollStep(PowerOn, Request) == Awaiting && Counted(PowerOn, Request) == []
    ensures Truthful(PowerOn, Polled(Request), 0, 0) && forall lag: nat :: Causal(PowerOn, Polled(Request), 0, lag)
  {
    TstampDecoding(Zero);
    var s1 := EventStep(PowerOn, Request);
    assert s1.sync == PowerOn.sync.(state := Synced);
    assert !Resets(s1, Request.general) && TakesFollowUp(s1, Request);
  }

  lemma ResponseStep(s: Slave, t2: u64, t4: Timestamp)
    requires Open(s)
    ensures Counted(s, Response(t2, t4)) == [Sample(0, t2, 0, TstampToNs(t4))]
    ensures Open(PollStep(s, Response(t2, t4))) && Truthful(s, Polled(Response(t2, t4)), 0, 0)
    ensures forall lag: nat | TstampToNs(t4) <= t2 + lag :: Causal(s, Polled(Response(t2, t4)), 0, lag)
  {
    TstampDecoding(t4);
    var s1 := EventStep(s, Response(t2, t4));
    assert TakesDelayResp(s1, Response(t2, t4));
  }

  /** An exchange whose request is answered twice. */
  function TwoResponses(t2: u64, t4: Timestamp, u2: u64, u4: Timestamp): seq<Event> {
    [Start(0), Polled(Request), Polled(Response(t2, t4)), Polled(Response(u2, u4))]
  }

  lemma TwoResponsesStates(t2: u64, t4: Timestamp, u2: u64, u4: Timestamp)
    ensures var es := TwoResponses(t2, t4, u2, u4);
            && Play(PowerOn, es[..0]) == Play(PowerOn, es[..1]) == PowerOn && Play(PowerOn, es[..2]) == Awaiting
            && Open(Play(PowerOn, es[..3]))
            && Heard(PowerOn, es[..3]) == [Sample(0, t2, 0, TstampToNs(t4))]
            && Heard(PowerOn, es) == [Sample(0, t2, 0, TstampToNs(t4)), Sample(0, u2, 0, TstampToNs(u4))]
  {
    hide Play, Heard, PollStep, Counted, Truthful, Causal, TstampToNs;
    var es := TwoResponses(t2, t4, u2, u4);
    PlayNothing(PowerOn);
    assert es[..0] == [];
    Unfold(PowerOn, es, 0);
    RequestStep();
    Unfold(PowerOn, es, 1);
    ResponseStep(Awaiting, t2, t4);
    Unfold(PowerOn, es, 2);
    ResponseStep(Play(PowerOn, es[..3]), u2, u4);
    Unfold(PowerOn, es, 3);
    assert es[..4] == es;
  }

  lemma TwoResponsesRun(t2: u64, t4: Timestamp, u2: u64, u4: Timestamp, lag: nat)
    requires t2 <= u2 < TWO_62 && TstampToNs(t4) <= t2 + lag && TstampToNs(u4) <= u2 + lag
    ensures var es := TwoResponses(t2, t4, u2, u4); Environment(PowerOn, es, 0, 0) && AllCausal(PowerOn, es, 0, lag)
  {
    hide Play, PollStep, Counted, Truthful, Causal, TstampToNs;
    var es := TwoResponses(t2, t4, u2, u4);
    TwoResponsesStates(t2, t4, u2, u4);
    StartIsHonest(PowerOn, 0, lag);
    RequestStep();
    ResponseStep(Awaiting, t2, t4);
    ResponseStep(Play(PowerOn, es[..3]), u2, u4);
    forall n | 0 <= n < 4
      ensures Truthful(Play(PowerOn, es[..n]), es[n], 0, 0) && Causal(Play(PowerOn, es[..n]), es[n], 0, lag)
    {
      assert n == 0 || n == 1 || n == 2 || n == 3;
    }
  }

  lemma StartIsHonest(s: Slave, now: u64, lag: nat)
    ensures Truthful(s, Start(now), 0, 0) && Causal(s, Start(now), 0, lag)
  {
  }

  /** What one response makes of the first estimate. */
  lemma FirstEstimate(e: Estimate, x: Sample)
    requires e.delay == 0 && Below62(x) && x.t1 == 0 && x.t3 == 0
    ensures Filter(e, Estimates([x])) == Estimate((x.t2 + x.t4) / 2, x.t2 - (x.t2 + x.t4) / 2)
  {
    ArithmeticIsExact(x);
    FilterOneMore(e, [], [x]);
    assert [] + [x] == [x];
  }

  lemma {:induction false} Attained(t2: u64, t4: Timestamp, lag: nat) returns (es: seq<Event>)
    requires t2 < TWO_62 && TstampToNs(t4) <= t2 + lag
    ensures Environment(PowerOn, es, 0, 0) && AllCausal(PowerOn, es, 0, lag)
    ensures Play(PowerOn, es).estimate == Estimate((t2 + TstampToNs(t4)) / 2, t2 - (t2 + TstampToNs(t4)) / 2)
  {
    hide Play, Environment, AllCausal, TstampToNs, Filter;
    var run := TwoResponses(t2, t4, t2, t4);
    TwoResponsesStates(t2, t4, t2, t4);
    TwoResponsesRun(t2, t4, t2, t4, lag);
    EnvironmentPrefix(PowerOn, run, 0, 0, 3);
    CausalPrefix(PowerOn, run, 0, lag, 3);
    es := run[..3];
    EstimateIsFiltered(PowerOn, es);
    TstampDecoding(t4);
    FirstEstimate(PowerOn.estimate, Sample(0, t2, 0, TstampToNs(t4)));
  }

  /** Every end is reached, for every delay below 2^59 and a true offset of zero. The upper end of
      `OffsetWithinDelay` needs no response from the future. Its lower end needs one: responses stamped
      at most `lag` after t2 reach down to half of `lag`, where `OffsetNotBelow` stops, and no further
      than the delay. */
  lemma {:induction false} BoundIsTight(d: int, lag: nat)
    requires 0 <= d < TWO_62 / 8 && lag <= 2 * d
    ensures exists es :: Environment(PowerOn, es, 0, 0) && AllCausal(PowerOn, es, 0, 0)
                         && Play(PowerOn, es).estimate == Estimate(d, d + 1)
    ensures exists es :: Environment(PowerOn, es, 0, 0) && AllCausal(PowerOn, es, 0, lag)
                         && Play(PowerOn, es).estimate == Estimate(d, -(lag / 2))
  {
    hide Play, Environment, AllCausal;
    TstampDecoding(Zero);
    var _ := Attained(2 * d + 1, Zero, 0);
    var t2 := d - lag / 2;
    var t4 := Timestamp(0, (t2 + lag) / NS_SEC, (t2 + lag) % NS_SEC);
    TstampDecoding(t4);
    assert (t2 + lag) / NS_SEC * NS_SEC + (t2 + lag) % NS_SEC == t2 + lag;
    assert (t2 + (t2 + lag)) / 2 == d;
    var _ := Attained(t2, t4, lag);
  }

  /** A run on which the stored delay rises after a sample is in, from 0 to 7: a repeated response, read
      later and stamped the same. */
  lemma DelayCanRise()
    ensures var es := TwoResponses(0, Zero, 14, Zero);
            && Environment(PowerOn, es, 0, 0) && AllCausal(PowerOn, es, 0, 0)
            && |Heard(PowerOn, es[..3])| == 1 && Play(PowerOn, es[..3]).estimate == Estimate(0, 0)
            && |Heard(PowerOn, es)| == 2 && Play(PowerOn, es).estimate == Estimate(7, 7)
  {
    hide Play, Environment, AllCausal, TstampToNs, Filter;
    var es := TwoResponses(0, Zero, 14, Zero);
    TstampDecoding(Zero);
    TwoResponsesStates(0, Zero, 14, Zero);
    TwoResponsesRun(0, Zero, 14, Zero, 0);
    EstimateIsFiltered(PowerOn, es[..3]);
    EstimateIsFiltered(PowerOn, es);
    var x, y := Sample(0, 0, 0, 0), Sample(0, 14, 0, 0);
    FirstEstimate(PowerOn.estimate, x);
    ArithmeticIsExact(y);
    FilterOneMore(PowerOn.estimate, [x], [y]);
    assert [x] + [y] == [x, y];
  }
}
