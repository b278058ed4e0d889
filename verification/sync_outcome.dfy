/** What comes of the sync phase when the packets are in order. */
module SyncOutcome {
  import opened MachineInt
  import opened Timer
  import opened PtpSlave
  import opened PtpRuns
  import opened PtpProvenance
  import opened SyncLoop

  /** A poll that completes an exchange does not fail. */
  lemma {:induction false} ExchangeNeverFails(s: Slave, es: seq<Event>, i: nat, j: nat, k: nat, q: u16)
    requires i <= j < k < |es| && Exchange(s, es, i, j, k, q)
    ensures es[k].Polled? && !PollFails(Play(s, es[..k]), es[k].p) && CountsAt(s, es, k)
  {
    hide Play, Opens, Undisturbed, FirstRequest, PollFails;
    ExchangeIsCounted(s, es, i, j, k, q);
    ServerIsFixed(s, es[..k]);
    CountingNeverFails(Play(s, es[..k]), es[k].p);
  }

  lemma CountingNeverFails(s: Slave, p: Poll)
    requires Counted(s, p) != []
    ensures !PollFails(s, p)
  {
  }

  /** Poll number k of the loop, counted from one, completes an exchange of the loop's run. */
  ghost predicate Completes(s: Slave, es: seq<Event>, k: nat) {
    k < |es| && exists i: nat, j: nat, q: u16 :: i <= j < k && Exchange(s, es, i, j, k, q)
  }

  lemma CompletedIsCounted(s: Slave, start: u64, polls: seq<Poll>, k: nat)
    requires 1 <= k <= |polls| && Completes(s, Trace(start, polls), k)
    ensures SampleCount(s, start, polls, k) > SampleCount(s, start, polls, k - 1)
  {
    hide Completes, Play, Heard, Counted;
    var es := Trace(start, polls);
    CompletedCounts(s, es, k);
    AfterOneMore(s, start, polls, k - 1);
    assert es[..k] == Trace(start, polls[..k - 1]) && es[k] == Polled(polls[k - 1]);
  }

  lemma CompletedCounts(s: Slave, es: seq<Event>, k: nat)
    requires Completes(s, es, k)
    ensures k < |es| && CountsAt(s, es, k)
  {
    hide Exchange, CountsAt, PollFails, Play;
    var i: nat, j: nat, q: u16 :| i <= j < k && Exchange(s, es, i, j, k, q);
    ExchangeNeverFails(s, es, i, j, k, q);
  }

  lemma {:induction false} CountGrows(s: Slave, start: u64, polls: seq<Poll>, m: nat, n: nat)
    requires m <= n <= |polls|
    ensures SampleCount(s, start, polls, m) <= SampleCount(s, start, polls, n)
    decreases n
  {
    if m < n {
      hide SampleCount;
      CountGrows(s, start, polls, m, n - 1);
      OneMoreCounts(s, start, polls, n - 1);
    }
  }

  lemma OneMoreCounts(s: Slave, start: u64, polls: seq<Poll>, n: nat)
    requires n < |polls|
    ensures SampleCount(s, start, polls, n) <= SampleCount(s, start, polls, n + 1)
  {
    hide Heard, After, Counted, Trace;
    AfterOneMore(s, start, polls, n);
  }

  /** Polls that each complete an exchange, in order. */
  ghost predicate Schedule(s: Slave, start: u64, polls: seq<Poll>, ends: seq<nat>) {
    && (forall m | 0 <= m < |ends| :: 1 <= ends[m] <= |polls| && Completes(s, Trace(start, polls), ends[m]))
    && (forall m | 1 <= m < |ends| :: ends[m - 1] < ends[m])
  }

  lemma {:induction false} CountAtLeast(s: Slave, start: u64, polls: seq<Poll>, ends: seq<nat>, m: nat)
    requires Schedule(s, start, polls, ends) && m < |ends|
    ensures SampleCount(s, start, polls, ends[m]) > m
  {
    hide Completes, SampleCount, Trace;
    CompletedIsCounted(s, start, polls, ends[m]);
    if m > 0 {
      CountAtLeast(s, start, polls, ends, m - 1);
      CountGrows(s, start, polls, ends[m - 1], ends[m] - 1);
    }
  }

  /** No poll reads what makes it fail, and none comes too late. */
  ghost predicate Orderly(s: Slave, start: u64, polls: seq<Poll>) {
    forall m | 1 <= m <= |polls| :: OrderlyAt(s, start, polls, m)
  }

  ghost predicate OrderlyAt(s: Slave, start: u64, polls: seq<Poll>, m: nat)
    requires 1 <= m <= |polls|
  {
    && !FailingPackets(After(s, start, polls[..m - 1]), polls[m - 1])
    && !Fires(Elapsed(After(s, start, polls[..m]).sync))
  }

  /** Every schedule of ten exchanges, with whatever else between them that neither fails nor takes too
      long, ends the loop as measured, at the latest with the tenth, and with a value that is not
      negative. */
  lemma {:induction false} TenExchangesMeasure(s: Slave, start: u64, polls: seq<Poll>, ends: seq<nat>, n: nat, v: Slave,
                                               exit: Exit, ret: int)
    requires Ended(s, start, polls, n, v, exit, ret)
    requires |ends| == 10 && ends[9] < |polls| && Schedule(s, start, polls, ends) && Orderly(s, start, polls)
    ensures exit == Measured && n <= ends[9] && SampleCount(s, start, polls, n) == 10 && ret >= 0
  {
    hide After, SampleCount, PollFails, FailingPackets, Fires, Schedule;
    CountAtLeast(s, start, polls, ends, 9);
    assert n <= ends[9];
    if n > 0 {
      PollFailsIff(After(s, start, polls[..n - 1]), polls[n - 1]);
      assert OrderlyAt(s, start, polls, n);
    }
  }

  // ---------- such a run ----------

  /** A request, ten responses to it, and one more look. */
  const TenResponses: seq<Poll> := [Request] + seq(10, _ => Response(14, Zero)) + [Quiet(14)]

  lemma ResponseKeepsGoing(v: Slave, t2: u64)
    requires Open(v)
    ensures !PollFails(v, Response(t2, Zero)) && Elapsed(PollStep(v, Response(t2, Zero)).sync) == 0
    ensures |Counted(v, Response(t2, Zero))| == 1 && Open(PollStep(v, Response(t2, Zero)))
  {
    hide PollStep, PollFails, Counted;
    ResponseStep(v, t2, Zero);
    CountingNeverFails(v, Response(t2, Zero));
    TimerStep(v, Response(t2, Zero));
  }

  lemma {:induction false} TenResponsesLoop(n: nat)
    requires n <= 10
    ensures var v := After(PowerOn, 0, TenResponses[..n + 1]);
            Looping(PowerOn, 0, TenResponses, n + 1, v, 0) && Open(v) && v.sync.syncedCount == n
  {
    hide After, Looping, Ended, PollStep, PollFails, Fires, Open, Response, Elapsed, Counted;
    TruncatedTest(0);
    if n == 0 {
      TenResponsesBegin();
    } else {
      TenResponsesLoop(n - 1);
      var v := After(PowerOn, 0, TenResponses[..n]);
      assert TenResponses[n] == Response(14, Zero);
      LoopStep(PowerOn, 0, TenResponses, n, v, 0);
      AfterOneMore(PowerOn, 0, TenResponses, n);
      ResponseKeepsGoing(v, 14);
      CountStep(v, Response(14, Zero));
    }
  }

  lemma TenResponsesBegin()
    ensures var v := After(PowerOn, 0, TenResponses[..1]);
            Looping(PowerOn, 0, TenResponses, 1, v, 0) && Open(v) && v.sync.syncedCount == 0
  {
    hide After, Looping, Ended, PollStep, PollFails, Fires, Counted;
    LoopBegins(PowerOn, 0, TenResponses);
    AfterNone(PowerOn, 0, TenResponses);
    LoopStep(PowerOn, 0, TenResponses, 0, PowerOn, 0);
    AfterOneMore(PowerOn, 0, TenResponses, 0);
    RequestStep();
    PollFailsIff(PowerOn, Request);
    TruncatedTest(0);
  }

  /** Ten responses to one request end the loop as measured and return zero. */
  lemma TenResponsesMeasure()
    ensures Ended(PowerOn, 0, TenResponses, 11, After(PowerOn, 0, TenResponses[..11]), Measured, 0)
  {
    hide After, Looping, Ended, Open;
    TenResponsesLoop(10);
    LoopEnds(PowerOn, 0, TenResponses, 11, After(PowerOn, 0, TenResponses[..11]), 0);
  }
}
