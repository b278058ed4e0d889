/** The main loop of lib/aoip.c's network thread: the SAP and PTP timers around the RTP work,
    and the SAP messages that surround the whole. */
module NetworkLoop {
  import opened MachineInt
  import opened Timer
  import opened PtpSlave
  import opened PtpRuns
  import opened PtpProvenance
  import opened SyncLoop

  const TIMEOUT_SAP: int := 30 * NS_SEC

  /** How the RTP part of an iteration ends. `RtpAgain` is a send that would block: the loop
      goes round again without looking at its timers. */
  datatype Rtp = RtpDone | RtpAgain | RtpFailed

  datatype Iteration = Iteration(poll: Poll, rtp: Rtp, sapSent: bool)

  /** What leaves the thread, in order; a periodic announcement with its reading. */
  datatype Act = FirstAnnounce | Announce(at: u64) | RtpWork | Delete

  datatype Exit = Running | PtpError | RtpError | SapError | PtpTimeout

  datatype Main = Main(slave: Slave, sapTimer: u64, log: seq<Act>, exit: Exit)

  // ---------- specification ----------

  function Enter(s: Slave, start: u64): Main {
    Main(Begin(s, start), start, [FirstAnnounce], Running)
  }

  /** The two timer checks at the end of an iteration. */
  function TimerChecks(m: Main, sapSent: bool): Main {
    var y := m.slave.sync;
    var due := NsSub(y.now, m.sapTimer) >= TIMEOUT_SAP;
    var m1 := if due then m.(log := m.log + [Announce(y.now)]) else m;
    if due && !sapSent then m1.(exit := SapError)
    else
      var m2 := if due then m1.(sapTimer := y.now) else m1;
      if Elapsed(y) >= TIMEOUT_PTP then m2.(exit := PtpTimeout) else m2
  }

  function Step(m: Main, it: Iteration): Main {
    if !m.exit.Running? then m
    else
      var m1 := m.(slave := PollStep(m.slave, it.poll));
      if PollFails(m.slave, it.poll) then m1.(exit := PtpError)
      else
        var m2 := m1.(log := m1.log + [RtpWork]);
        match it.rtp
        case RtpAgain => m2
        case RtpFailed => m2.(exit := RtpError)
        case RtpDone => TimerChecks(m2, it.sapSent)
  }

  function Steps(m: Main, its: seq<Iteration>): Main {
    if its == [] then m else Step(Steps(m, its[..|its| - 1]), its[|its| - 1])
  }

  lemma StepsOneMore(m: Main, its: seq<Iteration>, n: nat)
    requires n < |its|
    ensures Steps(m, its[..n + 1]) == Step(Steps(m, its[..n]), its[n])
  {
    assert its[..n + 1][..n] == its[..n];
  }

  lemma {:induction false} ExitIsFinal(m: Main, its: seq<Iteration>, n: nat)
    requires n <= |its| && !Steps(m, its[..n]).exit.Running?
    ensures Steps(m, its) == Steps(m, its[..n])
    decreases |its| - n
  {
    if n == |its| {
      assert its[..n] == its;
    } else {
      StepsOneMore(m, its, n);
      ExitIsFinal(m, its, n + 1);
    }
  }

  // ---------- the loop ----------

  function Polls(its: seq<Iteration>): seq<Poll> {
    seq(|its|, i requires 0 <= i < |its| => its[i].poll)
  }

  lemma AfterPolls(s: Slave, start: u64, its: seq<Iteration>, n: nat)
    requires n < |its|
    ensures After(s, start, Polls(its[..n + 1])) == PollStep(After(s, start, Polls(its[..n])), its[n].poll)
  {
    var polls := Polls(its);
    assert polls[..n] == Polls(its[..n]) && polls[..n + 1] == Polls(its[..n + 1]);
    AfterOneMore(s, start, polls, n);
  }

  method Loop(c: PtpClient, start: u64, its: seq<Iteration>) returns (log: seq<Act>, exit: Exit, ran: nat)
    modifies c
    ensures var m := Steps(Enter(old(c.View()), start), its);
            c.View() == m.slave && log == m.log + [Delete] && exit == m.exit
    ensures ran <= |its| && c.View() == After(old(c.View()), start, Polls(its[..ran]))
    ensures exit == Running ==> ran == |its|
    ensures |log| >= 2
  {
    hide PollStep, PollFails, After;
    log := [FirstAnnounce];
    ghost var s := c.View();
    ghost var m0 := Enter(s, start);
    AfterNone(s, start, Polls(its));
    assert Polls(its)[..0] == Polls(its[..0]);
    c.BeginLoop(start);
    var sapTimer := start;
    exit := Running;
    ran := 0;
    while ran < |its|
      invariant ran <= |its| && exit == Running && log != []
      invariant Steps(m0, its[..ran]) == Main(c.View(), sapTimer, log, Running)
      invariant c.View() == After(s, start, Polls(its[..ran]))
    {
      StepsOneMore(m0, its, ran);
      AfterPolls(s, start, its, ran);
      var it := its[ran];
      ran := ran + 1;
      var ret := c.PollSockets(it.poll);
      if ret < 0 {
        exit := PtpError;
        break;
      }
      log := log + [RtpWork];
      if it.rtp.RtpAgain? {
        continue;
      }
      if it.rtp.RtpFailed? {
        exit := RtpError;
        break;
      }
      if NsSub(c.now, sapTimer) >= TIMEOUT_SAP {
        log := log + [Announce(c.now)];
        if !it.sapSent {
          exit := SapError;
          break;
        }
        sapTimer := c.now;
      }
      if NsSub(c.now, c.timeoutTimer) >= TIMEOUT_PTP {
        exit := PtpTimeout;
        break;
      }
    }
    if exit == Running {
      assert its[..ran] == its;
    } else {
      ExitIsFinal(m0, its, ran);
    }
    log := log + [Delete];
  }

  // ---------- what the log looks like ----------

  /** The readings of the periodic announcements. */
  function Announced(log: seq<Act>): seq<u64> {
    if log == [] then []
    else
      var last := log[|log| - 1];
      Announced(log[..|log| - 1]) + if last.Announce? then [last.at] else []
  }

  /** When the SAP timer was last set: the loop's start or the latest announcement. */
  function LastAnnounced(start: u64, log: seq<Act>): u64 {
    var times := Announced(log);
    if times == [] then start else times[|times| - 1]
  }

  ghost predicate ThirtySecondsApart(start: u64, times: seq<u64>) {
    && (times != [] ==> times[0] >= start + 30 * NS_SEC)
    && (forall i | 1 <= i < |times| :: times[i] >= times[i - 1] + 30 * NS_SEC)
  }

  /** Between the first announcement and the deletion there are only periodic announcements and
      RTP work. */
  ghost predicate SapBrackets(log: seq<Act>) {
    log != [] && log[0] == FirstAnnounce && forall i | 1 <= i < |log| :: log[i].Announce? || log[i].RtpWork?
  }

  ghost predicate ReadingsRise(start: u64, its: seq<Iteration>) {
    && (its != [] ==> start <= its[0].poll.now)
    && (forall n | 1 <= n < |its| :: its[n - 1].poll.now <= its[n].poll.now)
  }

  function Now(start: u64, its: seq<Iteration>): u64 {
    if its == [] then start else its[|its| - 1].poll.now
  }

  ghost predicate GoodLog(start: u64, log: seq<Act>) {
    ThirtySecondsApart(start, Announced(log)) && SapBrackets(log)
  }

  lemma {:induction false} LogGrows(start: u64, log: seq<Act>, a: Act)
    requires GoodLog(start, log)
    requires a.RtpWork? || (a.Announce? && a.at >= LastAnnounced(start, log) + 30 * NS_SEC)
    ensures GoodLog(start, log + [a])
    ensures LastAnnounced(start, log + [a]) == if a.Announce? then a.at else LastAnnounced(start, log)
  {
    hide Announced;
    AnnouncedOneMore(log, a);
    var times := Announced(log);
    assert a.RtpWork? ==> Announced(log + [a]) == times;
    assert SapBrackets(log + [a]);
  }

  lemma AnnouncedOneMore(log: seq<Act>, a: Act)
    ensures Announced(log + [a]) == Announced(log) + if a.Announce? then [a.at] else []
  {
    assert (log + [a])[..|log|] == log;
  }

  /** Both timers are at or below the reading, so no time difference wraps, and the SAP timer shows
      the latest announcement, unless that could not be sent. */
  ghost predicate Timely(start: u64, m: Main) {
    && m.slave.sync.timeoutTimer <= m.slave.sync.now && m.sapTimer <= m.slave.sync.now
    && (m.exit != SapError ==> m.sapTimer == LastAnnounced(start, m.log))
    && GoodLog(start, m.log)
  }

  /** What the timer checks leave behind, started from a state whose timers are behind the clock. */
  lemma {:induction false} ChecksAreTimely(start: u64, m: Main, sapSent: bool)
    requires Timely(start, m) && m.exit.Running?
    ensures var m' := TimerChecks(m, sapSent);
            var y := m'.slave.sync;
            && m'.slave == m.slave && Timely(start, m')
            && (m'.exit.Running? ==>
                  && y.now - LastAnnounced(start, m'.log) < 30 * NS_SEC
                  && y.now - y.timeoutTimer < 2 * NS_SEC)
            && (m'.exit.PtpTimeout? ==> y.now - y.timeoutTimer >= 2 * NS_SEC)
  {
    hide GoodLog, LastAnnounced;
    if m.slave.sync.now - m.sapTimer >= 30 * NS_SEC {
      LogGrows(start, m.log, Announce(m.slave.sync.now));
    }
  }

  /** The state in which an iteration does its timer checks. */
  function AtChecks(m: Main, it: Iteration): Main {
    m.(slave := PollStep(m.slave, it.poll), log := m.log + [RtpWork])
  }

  lemma {:induction false} TimelyStep(start: u64, m: Main, it: Iteration)
    requires Timely(start, m) && m.exit.Running? && m.slave.sync.now <= it.poll.now
    ensures Timely(start, Step(m, it)) && Step(m, it).slave.sync.now == it.poll.now
    ensures Timely(start, AtChecks(m, it))
  {
    hide PollStep, PollFails, GoodLog, LastAnnounced, TimerChecks;
    TimerStep(m.slave, it.poll);
    LogGrows(start, m.log, RtpWork);
    ChecksAreTimely(start, AtChecks(m, it), it.sapSent);
  }

  /** Over every run whose readings do not go back: announcements are at least thirty seconds
      apart, only announcements and RTP work come between the first announcement and
      the deletion, and both timers stay behind the clock. */
  lemma {:induction false} RunIsTimely(s: Slave, start: u64, its: seq<Iteration>)
    requires ReadingsRise(start, its)
    ensures Timely(start, Steps(Enter(s, start), its))
    ensures Steps(Enter(s, start), its).slave.sync.now <= Now(start, its)
  {
    if its == [] {
      AnnouncedOneMore([], FirstAnnounce);
      assert [] + [FirstAnnounce] == [FirstAnnounce];
    } else {
      hide PollStep, PollFails, Timely, TimerChecks;
      var n := |its| - 1;
      RunIsTimely(s, start, its[..n]);
      var before := Steps(Enter(s, start), its[..n]);
      if before.exit.Running? {
        TimelyStep(start, before, its[n]);
      }
    }
  }

  /** Exactly when an iteration lets the loop go on: the poll succeeded, and either the send would
      have blocked, or less than two seconds have passed since the last PTP progress and any
      announcement that was due went out. So a timeout takes effect unless the send blocks, and
      after an iteration that did its checks the last announcement is less than thirty seconds old.
      And exactly why it ends otherwise. */
  lemma {:induction false} GoesOnIff(s: Slave, start: u64, its: seq<Iteration>, n: nat)
    requires n < |its| && ReadingsRise(start, its)
    requires Steps(Enter(s, start), its[..n]).exit.Running?
    ensures var before, m := Steps(Enter(s, start), its[..n]), Steps(Enter(s, start), its[..n + 1]);
            var y := m.slave.sync;
            && y.timeoutTimer <= y.now == its[n].poll.now
            && (m.exit.Running? <==>
                  && !PollFails(before.slave, its[n].poll)
                  && (|| its[n].rtp.RtpAgain?
                      || (&& its[n].rtp.RtpDone? && y.now - y.timeoutTimer < 2 * NS_SEC
                          && (y.now - LastAnnounced(start, before.log) >= 30 * NS_SEC ==> its[n].sapSent))))
            && (m.exit.Running? && its[n].rtp.RtpDone? ==> y.now - LastAnnounced(start, m.log) < 30 * NS_SEC)
            && (m.exit.PtpError? <==> PollFails(before.slave, its[n].poll))
            && (m.exit.RtpError? <==> !PollFails(before.slave, its[n].poll) && its[n].rtp.RtpFailed?)
            && (m.exit.SapError? <==>
                  && !PollFails(before.slave, its[n].poll) && its[n].rtp.RtpDone?
                  && y.now - LastAnnounced(start, before.log) >= 30 * NS_SEC && !its[n].sapSent)
            && (m.exit.PtpTimeout? ==> y.now - y.timeoutTimer >= 2 * NS_SEC)
  {
    hide PollStep, PollFails, GoodLog, LastAnnounced, Steps;
    RunIsTimely(s, start, its[..n]);
    StepsOneMore(Enter(s, start), its, n);
    var before := Steps(Enter(s, start), its[..n]);
    TimelyStep(start, before, its[n]);
    TimerStep(before.slave, its[n].poll);
    LogGrows(start, before.log, RtpWork);
    ChecksAreTimely(start, AtChecks(before, its[n]), its[n].sapSent);
  }

  function Blocked(now: u64): Iteration {
    Iteration(Poll(now, now, NoPacket, NoPacket, Sent, now), RtpAgain, true)
  }

  lemma BlockedStep(m: Main, now: u64)
    requires m.exit.Running?
    ensures var m' := Step(m, Blocked(now));
            && m'.exit.Running? && m'.sapTimer == m.sapTimer && m'.log == m.log + [RtpWork]
            && m'.slave.sync.now == now && m'.slave.sync.timeoutTimer == m.slave.sync.timeoutTimer
  {
    assert !PollFails(m.slave, Blocked(now).poll);
  }

  /** "The loop gives up two seconds after the last PTP progress" is false: sends that would block
      keep it going, without a timeout and without announcements, for any number of seconds. */
  lemma {:induction false} BlockedSendsHideTheTimers(s: Slave, n: nat) returns (its: seq<Iteration>)
    requires n * NS_SEC < TWO_64
    ensures |its| == n && ReadingsRise(0, its) && Now(0, its) == n * NS_SEC
    ensures var m := Steps(Enter(s, 0), its);
            && m.exit.Running? && Announced(m.log) == []
            && m.slave.sync.now == n * NS_SEC && m.slave.sync.timeoutTimer == 0
  {
    if n == 0 {
      its := [];
      AnnouncedOneMore([], FirstAnnounce);
      assert [] + [FirstAnnounce] == [FirstAnnounce];
    } else {
      hide PollStep, PollFails, Step, Announced;
      var init := BlockedSendsHideTheTimers(s, n - 1);
      its := init + [Blocked(n * NS_SEC)];
      assert its[..|its| - 1] == init;
      BlockedStep(Steps(Enter(s, 0), init), n * NS_SEC);
      AnnouncedOneMore(Steps(Enter(s, 0), init).log, RtpWork);
    }
  }

  // ---------- the whole thread ----------

  lemma {:induction false} PlayAppend(s: Slave, a: seq<Event>, b: seq<Event>)
    ensures Play(s, a + b) == Play(Play(s, a), b)
    decreases b
  {
    hide Apply;
    if b == [] {
      assert a + b == a;
    } else {
      var n := |b| - 1;
      assert (a + b)[..|a + b| - 1] == a + b[..n];
      PlayAppend(s, a, b[..n]);
    }
  }

  /** What the thread read in its three phases. */
  datatype Inputs = Inputs(announceStart: u64, looks: seq<Look>, syncStart: u64, polls: seq<Poll>,
                           firstSent: bool, mainStart: u64, its: seq<Iteration>)

  /** The events the PTP slave went through when the sync phase used `used` polls and the main loop
      ran `ran` iterations. */
  function Events(x: Inputs, used: nat, ran: nat): seq<Event>
    requires used <= |x.polls| && ran <= |x.its|
  {
    Trace(x.syncStart, x.polls[..used]) + Trace(x.mainStart, Polls(x.its[..ran]))
  }

  /** The thread leaves before its first announcement exactly if one of the first two phases returns a
      negative value, and with only that if it cannot be sent; otherwise its log ends with a deletion.
      A sync phase that timed out, with or without a sample, is no reason to leave, as long as its
      readings are less than 2^31 - 2*10^9 ns apart.
      The PTP slave's state is then that of one run over both loops, so the estimate of the sync
      phase is carried into the main loop. */
  method Thread(c: PtpClient, x: Inputs)
      returns (log: seq<Act>, announced: int, synced: int, exit: SyncLoop.Exit, used: nat, ran: nat)
    modifies c
    ensures used <= |x.polls| && ran <= |x.its|
    ensures log == [] <==> announced < 0 || synced < 0
    ensures announced >= 0 && exit.TimedOut? && Spaced(x.syncStart, x.polls, 0x8000_0000) ==> log != []
    ensures log == [FirstAnnounce] <==> announced >= 0 && synced >= 0 && !x.firstSent
    ensures announced >= 0 ==>
              var s := old(c.View()).(serverId := c.serverId);
              var s1 := Play(s, Trace(x.syncStart, x.polls[..used]));
              && Ended(s, x.syncStart, x.polls, used, s1, exit, synced)
              && (log == [] || log == [FirstAnnounce] || (
                    && c.View() == Play(s, Events(x, used, ran))
                    && log == Steps(Enter(s1, x.mainStart), x.its).log + [Delete]))
  {
    hide Play, Steps, Enter, NoAnnounce, Continues, SampleCount, Spaced;
    log, synced, exit, used, ran := [], 0, Stopped, 0, 0;
    var looked;
    announced, looked := AnnounceLoop(c, x.announceStart, x.looks);
    if announced < 0 {
      return;
    }
    ghost var s := c.View();
    synced, exit, used := SyncLoop.Run(c, x.syncStart, x.polls);
    ServerIsFixed(s, Trace(x.syncStart, x.polls[..used]));
    if Spaced(x.syncStart, x.polls, 0x8000_0000) {
      TimeoutIsNotReported(s, x.syncStart, x.polls, used, c.View(), exit, synced);
    }
    if synced < 0 {
      return;
    }
    if !x.firstSent {
      log := [FirstAnnounce];
      return;
    }
    var mainExit;
    log, mainExit, ran := Loop(c, x.mainStart, x.its);
    PlayAppend(s, Trace(x.syncStart, x.polls[..used]), Trace(x.mainStart, Polls(x.its[..ran])));
    ServerIsFixed(s, Events(x, used, ran));
  }
}
