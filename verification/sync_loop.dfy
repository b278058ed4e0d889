/** The announce and sync phases of lib/aoip.c. A loop is given what it would read from outside,
    iteration by iteration; the stop flag is seen where the inputs end. */
module SyncLoop {
  import opened MachineInt
  import opened Timer
  import opened PtpSlave
  import opened PtpRuns

  const TIMEOUT_PTP_ANNOUNCE: int := 3 * NS_SEC
  const TIMEOUT_PTP: int := 2 * NS_SEC
  const SAMPLES_WANTED: int := 10

  /** One look at the announce phase's socket. */
  datatype Look = Look(now: u64, general: Recv)

  ghost predicate NoAnnounce(looks: seq<Look>) {
    forall i | 0 <= i < |looks| :: !(looks[i].general.Packet? && looks[i].general.msg.TwoStepAnnounce())
  }

  /** The first two-step announcement names the server; without one the loop ends by the stop
      flag or fails three seconds after it began, at the first reading that late. */
  method AnnounceLoop(c: PtpClient, start: u64, looks: seq<Look>) returns (ret: int, used: nat)
    modifies c`serverId
    ensures used <= |looks|
    ensures c.serverId != old(c.serverId) ==> used > 0 && !NoAnnounce(looks[..used])
    ensures !NoAnnounce(looks[..used]) ==>
              && NoAnnounce(looks[..used - 1]) && ret == 0
              && c.serverId == looks[used - 1].general.msg.clockId
    ensures NoAnnounce(looks[..used]) ==>
              (ret == -1 <==> used > 0 && NsSub(looks[used - 1].now, start) >= 3 * NS_SEC)
    ensures NoAnnounce(looks[..used]) && ret != -1 ==> ret == 0 && used == |looks|
    ensures forall i | 0 <= i < used - 1 :: NsSub(looks[i].now, start) < 3 * NS_SEC
  {
    used := 0;
    while used < |looks|
      invariant used <= |looks| && NoAnnounce(looks[..used]) && c.serverId == old(c.serverId)
      invariant forall i | 0 <= i < used :: NsSub(looks[i].now, start) < TIMEOUT_PTP_ANNOUNCE
    {
      var look := looks[used];
      var found := c.RecvAnnounce(look.general);
      used := used + 1;
      assert looks[..used - 1] + [look] == looks[..used];
      if found {
        assert looks[..used][used - 1] == look;
        return 0, used;
      }
      if NsSub(look.now, start) >= TIMEOUT_PTP_ANNOUNCE {
        return -1, used;
      }
    }
    return 0, used;
  }

  // ---------- the sync phase ----------

  datatype Exit = Stopped | Measured | Failed | TimedOut

  function Trace(start: u64, polls: seq<Poll>): seq<Event> {
    [Start(start)] + seq(|polls|, i requires 0 <= i < |polls| => Polled(polls[i]))
  }

  function After(s: Slave, start: u64, polls: seq<Poll>): Slave {
    Play(s, Trace(start, polls))
  }

  lemma {:induction false} AfterOneMore(s: Slave, start: u64, polls: seq<Poll>, n: nat)
    requires n < |polls|
    ensures After(s, start, polls[..n + 1]) == PollStep(After(s, start, polls[..n]), polls[n])
    ensures Heard(s, Trace(start, polls[..n + 1]))
         == Heard(s, Trace(start, polls[..n])) + Counted(After(s, start, polls[..n]), polls[n])
  {
    var es := Trace(start, polls[..n + 1]);
    assert es[..n + 1] == Trace(start, polls[..n]) && es[..n + 2] == es;
    Unfold(s, es, n + 1);
  }

  lemma AfterNone(s: Slave, start: u64, polls: seq<Poll>)
    ensures After(s, start, polls[..0]) == Begin(s, start)
    ensures Heard(s, Trace(start, polls[..0])) == []
  {
    var es := Trace(start, polls[..0]);
    assert es == [Start(start)] && es[..0] == [] && es[..1] == es;
    Unfold(s, es, 0);
  }

  /** What the loop stores in its `int ret`, and the test on it: the elapsed time is cut to 32
      bits and then widened, with its sign, for the unsigned comparison. */
  function Elapsed(y: SyncContext): u64 {
    NsSub(y.now, y.timeoutTimer)
  }

  predicate Fires(elapsed: u64) {
    AsU64(AsI32(elapsed)) >= TIMEOUT_PTP
  }

  /** The truncated test is right exactly for elapsed times outside the first two seconds after
      each wrap of the 32-bit counter; a timeout noticed before 2^31 ns leaves a positive value. */
  lemma TruncatedTest(elapsed: u64)
    ensures Fires(elapsed) <==> elapsed % TWO_32 >= 2 * NS_SEC
    ensures (Fires(elapsed) <==> elapsed >= TIMEOUT_PTP) <==> !(elapsed >= TWO_32 && elapsed % TWO_32 < TIMEOUT_PTP)
    ensures AsI32(elapsed) < 0 <==> elapsed % TWO_32 >= 0x8000_0000
    ensures TIMEOUT_PTP <= elapsed < 0x8000_0000 ==> Fires(elapsed) && AsI32(elapsed) > 0
  {
  }

  /** The n-th poll did not end the loop. */
  ghost predicate Continues(s: Slave, start: u64, polls: seq<Poll>, n: nat)
    requires 1 <= n <= |polls|
  {
    !PollFails(After(s, start, polls[..n - 1]), polls[n - 1]) && !Fires(Elapsed(After(s, start, polls[..n]).sync))
  }

  /** How many samples the first n polls counted. */
  ghost function SampleCount(s: Slave, start: u64, polls: seq<Poll>, n: nat): nat
    requires n <= |polls|
  {
    |Heard(s, Trace(start, polls[..n]))|
  }

  /** The state `v` and the value `ret` of the loop after n polls, none of which ended it. */
  ghost predicate Looping(s: Slave, start: u64, polls: seq<Poll>, n: nat, v: Slave, ret: int) {
    && n <= |polls| && v == After(s, start, polls[..n])
    && SampleCount(s, start, polls, n) == v.sync.syncedCount <= SAMPLES_WANTED
    && (forall m | 1 <= m <= n :: Continues(s, start, polls, m))
    && (forall m | 0 <= m < n :: SampleCount(s, start, polls, m) < SAMPLES_WANTED)
    && ret == if n == 0 then 0 else AsI32(Elapsed(v.sync))
  }

  /** The loop ended in state `v` after n polls, of which only the last may have ended it or brought the
      tenth sample: by the stop flag, ten counted Delay_Resps, a poll that failed, or the timeout test. Of all these it
      returns a negative value only for a failed poll and for a timeout whose elapsed time,
      cut to 32 bits, has its top bit set. */
  ghost predicate Ended(s: Slave, start: u64, polls: seq<Poll>, n: nat, v: Slave, exit: Exit, ret: int) {
    && n <= |polls| && v == After(s, start, polls[..n])
    && SampleCount(s, start, polls, n) == v.sync.syncedCount <= SAMPLES_WANTED
    && (forall m | 1 <= m < n :: Continues(s, start, polls, m))
    && (forall m | 0 <= m < n :: SampleCount(s, start, polls, m) < SAMPLES_WANTED)
    && (n > 0 && !Continues(s, start, polls, n) ==> exit == Failed || exit == TimedOut)
    && (exit == Stopped ==> n == |polls|)
    && (exit == Measured ==> n < |polls| && SampleCount(s, start, polls, n) == SAMPLES_WANTED)
    && (exit == Failed <==> n > 0 && PollFails(After(s, start, polls[..n - 1]), polls[n - 1]))
    && (exit == TimedOut ==> n > 0 && Fires(Elapsed(v.sync)))
    && ret == (if exit == Failed then -1 else if n == 0 then 0 else AsI32(Elapsed(v.sync)))
    && (ret < 0 <==> exit == Failed || (exit == TimedOut && Elapsed(v.sync) % TWO_32 >= 0x8000_0000))
  }

  lemma CountStep(s: Slave, p: Poll)
    requires s.sync.syncedCount < 255
    ensures PollStep(s, p).sync.syncedCount == s.sync.syncedCount + |Counted(s, p)|
    ensures |Counted(s, p)| <= 1
  {
    assert EventStep(s, p).sync.syncedCount == s.sync.syncedCount;
  }

  lemma LoopStep(s: Slave, start: u64, polls: seq<Poll>, n: nat, v: Slave, ret: int)
    requires Looping(s, start, polls, n, v, ret) && n < |polls| && v.sync.syncedCount < SAMPLES_WANTED
    ensures var v' := PollStep(v, polls[n]);
            var elapsed := Elapsed(v'.sync);
            if PollFails(v, polls[n]) then Ended(s, start, polls, n + 1, v', Failed, -1)
            else if Fires(elapsed) then Ended(s, start, polls, n + 1, v', TimedOut, AsI32(elapsed))
            else Looping(s, start, polls, n + 1, v', AsI32(elapsed))
  {
    hide PollStep, PollFails, Counted, Play;
    AfterOneMore(s, start, polls, n);
    CountStep(v, polls[n]);
    TruncatedTest(Elapsed(PollStep(v, polls[n]).sync));
  }

  lemma LoopBegins(s: Slave, start: u64, polls: seq<Poll>)
    ensures Looping(s, start, polls, 0, Begin(s, start), 0)
  {
    AfterNone(s, start, polls);
  }

  lemma LoopEnds(s: Slave, start: u64, polls: seq<Poll>, n: nat, v: Slave, ret: int)
    requires Looping(s, start, polls, n, v, ret)
    ensures v.sync.syncedCount <= SAMPLES_WANTED
    ensures n == |polls| ==> Ended(s, start, polls, n, v, Stopped, ret)
    ensures n < |polls| && v.sync.syncedCount == SAMPLES_WANTED ==> Ended(s, start, polls, n, v, Measured, ret)
  {
    if n > 0 {
      assert Continues(s, start, polls, n);
      TruncatedTest(Elapsed(v.sync));
    }
  }

  method Run(c: PtpClient, start: u64, polls: seq<Poll>) returns (ret: int, exit: Exit, used: nat)
    modifies c
    ensures Ended(old(c.View()), start, polls, used, c.View(), exit, ret)
  {
    hide PollStep, PollFails, Looping, Ended;
    ghost var s := c.View();
    c.BeginLoop(start);
    LoopBegins(s, start, polls);
    ret, used := 0, 0;
    while used < |polls|
      invariant used <= |polls|
      invariant Looping(s, start, polls, used, c.View(), ret)
    {
      LoopEnds(s, start, polls, used, c.View(), ret);
      if c.syncedCount == SAMPLES_WANTED {
        return ret, Measured, used;
      }
      LoopStep(s, start, polls, used, c.View(), ret);
      ret := c.PollSockets(polls[used]);
      used := used + 1;
      if ret < 0 {
        return ret, Failed, used;
      }
      ret := AsI32(NsSub(c.now, c.timeoutTimer));
      if AsU64(ret) >= TIMEOUT_PTP {
        return ret, TimedOut, used;
      }
    }
    LoopEnds(s, start, polls, used, c.View(), ret);
    return ret, Stopped, used;
  }

  function Reading(start: u64, polls: seq<Poll>, n: nat): u64
    requires n <= |polls|
  {
    if n == 0 then start else polls[n - 1].now
  }

  /** A poll that finds nothing. */
  function Quiet(now: u64): Poll {
    Poll(now, now, NoPacket, NoPacket, Sent, now)
  }

  /** A run that misses its timeout: the one reading after the start comes 2^32 ns later. */
  lemma TimeoutCanBeMissed(s: Slave)
    ensures var polls := [Quiet(TWO_32)];
            && Continues(s, 0, polls, 1)
            && After(s, 0, polls).sync.now - After(s, 0, polls).sync.timeoutTimer == TWO_32 > TIMEOUT_PTP
  {
    var polls := [Quiet(TWO_32)];
    AfterNone(s, 0, polls);
    AfterOneMore(s, 0, polls, 0);
    assert polls[..1] == polls;
    hide After;
    TruncatedTest(TWO_32);
  }

  /** Readings never go back, and each comes less than `gap` - 2*10^9 ns after the one before. */
  ghost predicate Spaced(start: u64, polls: seq<Poll>, gap: int) {
    forall n | 1 <= n <= |polls| ::
      0 <= Reading(start, polls, n) - Reading(start, polls, n - 1) < gap - TIMEOUT_PTP
  }

  /** The timer is refreshed exactly by a change of state, a counted sample, or a packet with another
      sequence id. */
  lemma TimerStep(s: Slave, p: Poll)
    ensures var s' := PollStep(s, p);
            var refreshed := s'.sync.state != s.sync.state || Counted(s, p) != []
                             || (!p.event.RecvFailed? && Resets(EventStep(s, p), p.general));
            s'.sync.now == p.now && s'.sync.timeoutTimer == if refreshed then p.now else s.sync.timeoutTimer
  {
  }

  lemma {:induction false} ElapsedBelow(s: Slave, start: u64, polls: seq<Poll>, n: nat, gap: int)
    requires TIMEOUT_PTP <= gap <= TWO_32 && Spaced(start, polls, gap) && n <= |polls|
    requires forall m | 1 <= m < n :: Continues(s, start, polls, m)
    ensures var y := After(s, start, polls[..n]).sync;
            y.now == Reading(start, polls, n) && 0 <= y.now - y.timeoutTimer == Elapsed(y) < gap
  {
    hide After, PollStep, PollFails, Counted, Resets, Fires;
    if n == 0 {
      AfterNone(s, start, polls);
    } else {
      ElapsedBelow(s, start, polls, n - 1, gap);
      AfterOneMore(s, start, polls, n - 1);
      var before := After(s, start, polls[..n - 1]).sync;
      TimerStep(After(s, start, polls[..n - 1]), polls[n - 1]);
      assert Elapsed(before) < TIMEOUT_PTP by {
        if n == 1 {
          AfterNone(s, start, polls);
        } else {
          assert Continues(s, start, polls, n - 1);
          TruncatedTest(Elapsed(before));
        }
      }
      assert Reading(start, polls, n) - Reading(start, polls, n - 1) < gap - TIMEOUT_PTP;
    }
  }

  /** With readings less than 2^32 - 2*10^9 ns apart the truncated test is the intended one: it fires
      exactly when two seconds have passed since the timer was last refreshed. */
  lemma {:induction false} TimeoutIsExact(s: Slave, start: u64, polls: seq<Poll>, n: nat)
    requires Spaced(start, polls, TWO_32) && n <= |polls|
    requires forall m | 1 <= m < n :: Continues(s, start, polls, m)
    ensures var y := After(s, start, polls[..n]).sync;
            && y.now == Reading(start, polls, n) && y.timeoutTimer <= y.now
            && (Fires(Elapsed(y)) <==> y.now - y.timeoutTimer >= TIMEOUT_PTP)
  {
    hide After, Fires;
    ElapsedBelow(s, start, polls, n, TWO_32);
    TruncatedTest(Elapsed(After(s, start, polls[..n]).sync));
  }

  /** With readings less than 2^31 - 2*10^9 ns apart the loop never reports a timeout: it returns a
      negative value only for a failed poll, and a positive one whenever it timed out. */
  lemma {:induction false} TimeoutIsNotReported(s: Slave, start: u64, polls: seq<Poll>, n: nat, v: Slave,
                                                exit: Exit, ret: int)
    requires Spaced(start, polls, 0x8000_0000) && Ended(s, start, polls, n, v, exit, ret)
    ensures ret < 0 <==> exit == Failed
    ensures exit == TimedOut ==> ret > 0
  {
    hide After, Fires, PollFails, Continues;
    ElapsedBelow(s, start, polls, n, 0x8000_0000);
    TruncatedTest(Elapsed(v.sync));
  }

  // ---------- a silent master and a talkative one ----------

  lemma QuietStep(v: Slave, now: u64)
    ensures PollStep(v, Quiet(now)).sync == v.sync.(now := now, t2 := now) && !PollFails(v, Quiet(now))
  {
  }

  /** Twenty looks at a silent master, a tenth of a second apart. */
  const Silence: seq<Poll> := seq(20, i requires 0 <= i < 20 => Quiet((i + 1) * 100_000_000))

  lemma QuietGoesOn(s: Slave, polls: seq<Poll>, n: nat, v: Slave, ret: int)
    requires n < |polls| && Looping(s, 0, polls, n, v, ret) && polls[n] == Quiet(polls[n].now)
    requires v.sync.timeoutTimer == 0 && v.sync.syncedCount == 0 && polls[n].now < 2 * NS_SEC
    ensures var v' := PollStep(v, polls[n]);
            && Looping(s, 0, polls, n + 1, v', polls[n].now)
            && v'.sync.timeoutTimer == 0 && v'.sync.syncedCount == 0
  {
    hide Looping, Ended, PollStep, PollFails, Fires;
    LoopStep(s, 0, polls, n, v, ret);
    QuietStep(v, polls[n].now);
    TruncatedTest(polls[n].now);
  }

  lemma {:induction false} SilentLoop(s: Slave, n: nat)
    requires n < 20
    ensures var v := After(s, 0, Silence[..n]);
            && Looping(s, 0, Silence, n, v, n * 100_000_000)
            && v.sync.timeoutTimer == 0 && v.sync.syncedCount == 0
  {
    hide After, Looping, PollStep;
    if n == 0 {
      LoopBegins(s, 0, Silence);
      AfterNone(s, 0, Silence);
    } else {
      SilentLoop(s, n - 1);
      assert Silence[n - 1] == Quiet(n * 100_000_000);
      QuietGoesOn(s, Silence, n - 1, After(s, 0, Silence[..n - 1]), (n - 1) * 100_000_000);
      AfterOneMore(s, 0, Silence, n - 1);
    }
  }

  /** A run that ends by the timeout and returns a positive value, with readings as close as
      `TimeoutIsNotReported` asks: two seconds of silence, and not one sample. */
  lemma SilenceTimesOut(s: Slave)
    ensures Spaced(0, Silence, 0x8000_0000) && SampleCount(s, 0, Silence, 20) == 0
    ensures Ended(s, 0, Silence, 20, After(s, 0, Silence), TimedOut, TIMEOUT_PTP)
  {
    assert Spaced(0, Silence, 0x8000_0000);
    hide After, Looping, PollStep, PollFails, Fires, Spaced;
    SilentLoop(s, 19);
    var v := After(s, 0, Silence[..19]);
    LoopStep(s, 0, Silence, 19, v, 19 * 100_000_000);
    AfterOneMore(s, 0, Silence, 19);
    assert Silence[..20] == Silence;
    QuietStep(v, TIMEOUT_PTP);
    TruncatedTest(TIMEOUT_PTP);
  }

  /** A poll that finds the master's own announcement, with a sequence id of its own. */
  function Chatter(now: u64, id: u64): Poll {
    Poll(now, now, NoPacket, Packet(Message(2, 0, MSG_ANNOUNCE, 2, id, 1, Timestamp(0, 0, 0))), Sent, now)
  }

  lemma ChatterStep(v: Slave, now: u64, id: u64)
    requires v.sync.seqId == 0
    ensures !PollFails(v, Chatter(now, id))
    ensures var y := PollStep(v, Chatter(now, id)).sync;
            && y.seqId == 0 && y.syncedCount == v.sync.syncedCount
            && y.now == now && y.timeoutTimer == now
  {
  }

  /** "The loop gives up two seconds after the last step of an exchange" is false too: a packet with
      another sequence id, such as the master's own announcement, refreshes the timer. As many of them
      as one likes, at any readings, keep the loop going without a sample. */
  lemma {:induction false} ChatterHidesTheTimeout(s: Slave, polls: seq<Poll>, n: nat)
    requires n <= |polls| && forall i | 0 <= i < |polls| :: polls[i] == Chatter(polls[i].now, s.serverId)
    ensures Looping(s, 0, polls, n, After(s, 0, polls[..n]), 0)
    ensures After(s, 0, polls[..n]).sync.syncedCount == 0 && After(s, 0, polls[..n]).sync.seqId == 0
  {
    hide After, PollStep, PollFails, Fires, Looping, Ended, Chatter;
    if n == 0 {
      LoopBegins(s, 0, polls);
      AfterNone(s, 0, polls);
    } else {
      ChatterHidesTheTimeout(s, polls, n - 1);
      var v := After(s, 0, polls[..n - 1]);
      LoopStep(s, 0, polls, n - 1, v, 0);
      AfterOneMore(s, 0, polls, n - 1);
      ChatterStep(v, polls[n - 1].now, s.serverId);
      TruncatedTest(0);
    }
  }

  /** So the loop can go on for any number of seconds on one announcement a second, although these
      readings are close enough for the timeout test to be exact. */
  lemma ChatterRun(s: Slave, n: nat) returns (polls: seq<Poll>)
    requires n * NS_SEC < TWO_64
    ensures |polls| == n && Spaced(0, polls, TWO_32) && Reading(0, polls, n) == n * NS_SEC
    ensures SampleCount(s, 0, polls, n) == 0 && forall m | 1 <= m <= n :: Continues(s, 0, polls, m)
  {
    polls := seq(n, i requires 0 <= i < n => Chatter((i + 1) * NS_SEC, s.serverId));
    assert forall m | 1 <= m <= n :: Reading(0, polls, m) == m * NS_SEC;
    hide Chatter, Continues, After;
    ChatterHidesTheTimeout(s, polls, n);
  }
}
