/** Where a counted sample comes from, read off the packets of the run. */
module PtpProvenance {
  import opened MachineInt
  import opened Timer
  import opened PtpClock
  import opened PtpSlave
  import opened PtpRuns

  /** Event i is a Sync with sequence id q that finds the slave idle. */
  ghost predicate Opens(s: Slave, es: seq<Event>, i: nat, q: u16)
    requires i < |es|
  {
    && es[i].Polled? && Play(s, es[..i]).sync.state.Init?
    && es[i].p.event.Packet? && es[i].p.event.msg.version == 2 && es[i].p.event.msg.domain == 0
    && es[i].p.event.msg.msgType == 0x0 && es[i].p.event.msg.seqId == q
  }

  /** The general packet read in this event, if it is one of ours. */
  ghost predicate General(e: Event) {
    && e.Polled? && !e.p.event.RecvFailed? && e.p.general.Packet?
    && e.p.general.msg.version == 2 && e.p.general.msg.domain == 0
  }

  /** From i to k one loop keeps running and no packet carries another sequence id. */
  ghost predicate Undisturbed(es: seq<Event>, i: nat, k: nat, q: u16)
    requires k <= |es|
  {
    && (forall m | i < m < k :: es[m].Polled?)
    && (forall m | i <= m < k && General(es[m]) :: es[m].p.general.msg.seqId == q)
  }

  /** A packet of the exchange: its sequence id and the announced server's clock id. */
  ghost predicate Carries(e: Event, q: u16, id: u64, msgType: int) {
    && General(e) && e.p.general.msg.seqId == q && e.p.general.msg.clockId == id
    && e.p.general.msg.msgType == msgType
  }

  /** A Follow_Up whose Delay_Req did not fail to go out. */
  ghost predicate Requests(e: Event, q: u16, id: u64) {
    Carries(e, q, id, 0x8) && !e.p.send.SendFailed?
  }

  ghost predicate FirstRequest(es: seq<Event>, i: nat, j: nat, q: u16, id: u64)
    requires j < |es|
  {
    i <= j && Requests(es[j], q, id) && forall m | i <= m < j :: !Requests(es[m], q, id)
  }

  /** What the slave knows inside an undisturbed stretch that a Sync opened. */
  ghost predicate Tracking(s: Slave, es: seq<Event>, i: nat, n: nat, q: u16)
    requires n <= |es|
  {
    var y := Play(s, es[..n]).sync;
    && y.seqId == q && !y.state.Init?
    && (y.state.FollowedUp? <==> exists j :: i <= j < n && FirstRequest(es, i, j, q, s.serverId))
    && (forall j | i <= j < n && FirstRequest(es, i, j, q, s.serverId) ::
          y.t1 == TstampToNs(es[j].p.general.msg.tstamp) && y.t3 == es[j].p.sent)
  }

  lemma {:induction false} ServerIsFixed(s: Slave, es: seq<Event>)
    ensures Play(s, es).serverId == s.serverId
  {
    if es != [] {
      ServerIsFixed(s, es[..|es| - 1]);
    }
  }

  lemma {:induction false} Track(s: Slave, es: seq<Event>, i: nat, n: nat, q: u16)
    requires i < n <= |es| && Opens(s, es, i, q) && Undisturbed(es, i, n, q)
    ensures Tracking(s, es, i, n, q)
    decreases n
  {
    hide Play, Apply;
    var m := n - 1;
    Unfold(s, es, m);
    ServerIsFixed(s, es[..m]);
    if m > i {
      Track(s, es, i, m, q);
    }
    TrackStep(s, es, i, m, q);
  }

  lemma TrackStep(s: Slave, es: seq<Event>, i: nat, m: nat, q: u16)
    requires i <= m < |es| && Opens(s, es, i, q) && Undisturbed(es, i, m + 1, q)
    requires i < m ==> Tracking(s, es, i, m, q)
    requires Play(s, es[..m]).serverId == s.serverId
    requires Play(s, es[..m + 1]) == Apply(Play(s, es[..m]), es[m])
    ensures Tracking(s, es, i, m + 1, q)
  {
    hide Play;
    var p, before := es[m].p, Play(s, es[..m]);
    var s1, after := EventStep(before, p), Play(s, es[..m + 1]);
    assert s1.sync.seqId == q && !s1.sync.state.Init?;
    assert General(es[m]) ==> !Resets(s1, p.general);
    if s1.sync.state.FollowedUp? {
      var j :| i <= j < m && FirstRequest(es, i, j, q, s.serverId);
      assert after.sync.t1 == before.sync.t1 && after.sync.t3 == before.sync.t3;
    } else {
      assert Requests(es[m], q, s.serverId) <==> after.sync.state.FollowedUp?;
      forall k | i <= k < m ensures !Requests(es[k], q, s.serverId) {
        if Requests(es[k], q, s.serverId) {
          var f := Earliest(es, i, k, q, s.serverId);
        }
      }
      if after.sync.state.FollowedUp? {
        assert FirstRequest(es, i, m, q, s.serverId);
      }
    }
  }

  lemma {:induction false} Earliest(es: seq<Event>, i: nat, k: nat, q: u16, id: u64) returns (f: nat)
    requires i <= k < |es| && Requests(es[k], q, id)
    ensures i <= f <= k && FirstRequest(es, i, f, q, id)
    decreases k
  {
    if m :| i <= m < k && Requests(es[m], q, id) {
      f := Earliest(es, i, m, q, id);
    } else {
      f := k;
    }
  }

  lemma StaysOpen(s: Slave, e: Event)
    requires !Apply(s, e).sync.state.Init?
    ensures e.Polled? && (General(e) ==> e.p.general.msg.seqId == Apply(s, e).sync.seqId)
    ensures s.sync.state.Init? ==>
              && e.p.event.Packet? && e.p.event.msg.Ours() && e.p.event.msg.msgType == MSG_SYNC
              && e.p.event.msg.seqId == Apply(s, e).sync.seqId
    ensures !s.sync.state.Init? ==> s.sync.seqId == Apply(s, e).sync.seqId
  {
  }

  lemma Extend(es: seq<Event>, i: nat, m: nat, q: u16)
    requires i <= m < |es| && Undisturbed(es, i, m, q)
    requires (i < m ==> es[m].Polled?) && (General(es[m]) ==> es[m].p.general.msg.seqId == q)
    ensures Undisturbed(es, i, m + 1, q)
  {
  }

  /** Outside the idle state, the slave is in an undisturbed stretch that a Sync opened. */
  lemma {:induction false} Origin(s: Slave, es: seq<Event>, n: nat) returns (i: nat)
    requires s.sync.state.Init? && n <= |es| && !Play(s, es[..n]).sync.state.Init?
    ensures i < n && Opens(s, es, i, Play(s, es[..n]).sync.seqId)
    ensures Undisturbed(es, i, n, Play(s, es[..n]).sync.seqId)
    decreases n
  {
    assert n > 0;
    hide Apply;
    var m := n - 1;
    Unfold(s, es, m);
    StaysOpen(Play(s, es[..m]), es[m]);
    if Play(s, es[..m]).sync.state.Init? {
      i := m;
    } else {
      i := Origin(s, es, m);
    }
    Extend(es, i, m, Play(s, es[..n]).sync.seqId);
  }

  /** The poll k counts a sample exactly when an accepted Sync, then a Follow_Up with a
      Delay_Req attempt, then this Delay_Resp share one sequence id with nothing in between to
      disturb them. The request was made in a strictly earlier iteration. */
  ghost predicate Exchange(s: Slave, es: seq<Event>, i: nat, j: nat, k: nat, q: u16)
    requires j < k < |es| && i <= j
  {
    && Opens(s, es, i, q) && Undisturbed(es, i, k + 1, q)
    && FirstRequest(es, i, j, q, s.serverId) && Carries(es[k], q, s.serverId, 0x9)
  }

  ghost predicate CountsAt(s: Slave, es: seq<Event>, k: nat)
    requires k < |es|
  {
    CountedBy(Play(s, es[..k]), es[k]) != []
  }

  /** Soundness, with the timestamps: t1 and t4 are what the two packets of the announced server
      carry, t2 is the reading of poll k itself and t3 the one of the request. */
  lemma {:induction false} CountedSampleHasOrigin(s: Slave, es: seq<Event>, k: nat) returns (i: nat, j: nat, q: u16)
    requires s.sync.state.Init? && k < |es| && CountsAt(s, es, k)
    ensures i <= j < k && Exchange(s, es, i, j, k, q)
    ensures CountedBy(Play(s, es[..k]), es[k])
         == [Sample(TstampToNs(es[j].p.general.msg.tstamp), es[k].p.arrival, es[j].p.sent,
                    TstampToNs(es[k].p.general.msg.tstamp))]
    ensures Monotonic(es) ==> es[j].p.sent <= es[k].p.arrival
  {
    hide Play, Monotonic;
    var before := Play(s, es[..k]);
    q := before.sync.seqId;
    ServerIsFixed(s, es[..k]);
    i := Origin(s, es, k);
    Track(s, es, i, k, q);
    j :| i <= j < k && FirstRequest(es, i, j, q, s.serverId);
    if Monotonic(es) {
      ReadingsInOrder(es, j, k);
    }
  }

  /** Completeness: every such exchange is counted. */
  lemma {:induction false} ExchangeIsCounted(s: Slave, es: seq<Event>, i: nat, j: nat, k: nat, q: u16)
    requires i <= j < k < |es| && Exchange(s, es, i, j, k, q)
    ensures CountsAt(s, es, k)
  {
    ServerIsFixed(s, es[..k]);
    Track(s, es, i, k, q);
  }

  lemma {:induction false} ReadingsInOrder(es: seq<Event>, j: nat, k: nat)
    requires Monotonic(es) && j < k < |es|
    ensures LastReading(es[j]) <= FirstReading(es[k])
    ensures es[k].Polled? ==> LastReading(es[j]) <= es[k].p.arrival
    decreases k
  {
    if j < k - 1 {
      ReadingsInOrder(es, j, k - 1);
    }
  }
}
