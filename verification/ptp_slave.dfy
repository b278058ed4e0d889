/** The two-step PTPv2 slave of lib/ptpc.c: what one poll of its two sockets does. */
module PtpSlave {
  import opened MachineInt
  import opened Timer
  import opened PtpClock
  import opened DelayFilter
  import Ring

  const MSG_SYNC: int := 0x0
  const MSG_FOLLOW_UP: int := 0x8
  const MSG_DELAY_RESP: int := 0x9
  const MSG_ANNOUNCE: int := 0xb

  /** The header fields the slave looks at, and the timestamp that follows the header. */
  datatype Message = Message(version: u8, domain: u8, msgType: u8, flags: u16,
                             clockId: u64, seqId: u16, tstamp: Timestamp)
  {
    predicate Ours() {
      version == 2 && domain == 0
    }

    /** A multicast two-step announcement: flag bit 1 set, flag bit 2 clear. */
    predicate TwoStepAnnounce() {
      Ours() && msgType == MSG_ANNOUNCE && flags / 2 % 2 == 1 && flags / 4 % 2 == 0
    }
  }

  /** The flag tests are tests of the bits 2 and 4. */
  lemma TwoStepIff(m: Message)
    ensures m.TwoStepAnnounce() <==>
              && m.version == 2 && m.domain == 0 && m.msgType == 0xb
              && Ring.And(m.flags, 2) != 0 && Ring.And(m.flags, 4) == 0
  {
    var f := m.flags;
    assert Ring.And(f / 2, 1) == f / 2 % 2;
    assert Ring.And(f / 4, 1) == f / 4 % 2;
    assert Ring.And(f / 2, 2) == 2 * Ring.And(f / 4, 1);
  }

  /** What a non-blocking receive or send may come back with. */
  datatype Recv = Packet(msg: Message) | NoPacket | RecvFailed
  datatype Send = Sent | SendAgain | SendFailed

  /** Everything one loop iteration reads from outside: the iteration's clock reading, the
      reading before the event socket is polled, both packets, and how the Delay_Req went
      out with the reading taken after it (looked at only if one is sent). */
  datatype Poll = Poll(now: u64, arrival: u64, event: Recv, general: Recv, send: Send, sent: u64)

  datatype SyncState = Init | Synced | FollowedUp

  datatype SyncContext = SyncContext(state: SyncState, syncedCount: u8, seqId: u16, now: u64, timeoutTimer: u64,
                                     t1: u64, t2: u64, t3: u64, t4: u64)

  datatype Slave = Slave(serverId: u64, estimate: Estimate, sync: SyncContext)

  // ---------- specification ----------

  /** Entering a loop: a zeroed sync context with both clocks at the first reading. */
  function Begin(s: Slave, now: u64): Slave {
    s.(sync := SyncContext(Init, 0, 0, now, now, 0, 0, 0, 0))
  }

  /** The event socket: t2 is read anew on every poll; a Sync is taken only when idle. */
  function EventStep(s: Slave, p: Poll): Slave {
    var y := s.sync.(now := p.now, t2 := p.arrival);
    if p.event.Packet? && y.state.Init? && p.event.msg.Ours() && p.event.msg.msgType == MSG_SYNC then
      s.(sync := y.(seqId := p.event.msg.seqId, state := Synced, timeoutTimer := p.now))
    else
      s.(sync := y)
  }

  /** A packet on the general socket that belongs to the exchange in progress. */
  predicate Matching(s: Slave, r: Recv) {
    r.Packet? && r.msg.Ours() && r.msg.seqId == s.sync.seqId && r.msg.clockId == s.serverId
  }

  predicate TakesFollowUp(s: Slave, p: Poll) {
    Matching(s, p.general) && s.sync.state.Synced? && p.general.msg.msgType == MSG_FOLLOW_UP
  }

  predicate TakesDelayResp(s: Slave, p: Poll) {
    Matching(s, p.general) && s.sync.state.FollowedUp? && p.general.msg.msgType == MSG_DELAY_RESP
  }

  predicate Resets(s: Slave, r: Recv) {
    r.Packet? && r.msg.Ours() && r.msg.seqId != s.sync.seqId
  }

  function SampleOf(s: Slave, p: Poll): Sample
    requires p.general.Packet?
  {
    Sample(s.sync.t1, s.sync.t2, s.sync.t3, TstampToNs(p.general.msg.tstamp))
  }

  function ResetStep(s: Slave): Slave {
    s.(sync := s.sync.(t1 := 0, t2 := 0, t3 := 0, t4 := 0, state := Init, timeoutTimer := s.sync.now))
  }

  function FollowUpStep(s: Slave, p: Poll, t1: u64): Slave {
    var y := s.sync.(t1 := t1);
    s.(sync := if p.send.SendFailed? then y else y.(t3 := p.sent, state := FollowedUp, timeoutTimer := y.now))
  }

  function DelayRespStep(s: Slave, sample: Sample): Slave {
    s.(estimate := FilterStep(s.estimate, Of(sample)),
       sync := s.sync.(t4 := sample.t4, syncedCount := (s.sync.syncedCount + 1) % 256, timeoutTimer := s.sync.now))
  }

  /** The general socket. */
  function GeneralStep(s: Slave, p: Poll): Slave {
    if Resets(s, p.general) then ResetStep(s)
    else if TakesFollowUp(s, p) then FollowUpStep(s, p, TstampToNs(p.general.msg.tstamp))
    else if TakesDelayResp(s, p) then DelayRespStep(s, SampleOf(s, p))
    else s
  }

  /** Whether the general packet makes the slave give up: a receive error, another server
      under the same sequence id, or a Delay_Req that cannot be sent. */
  predicate GeneralFails(s: Slave, p: Poll) {
    || p.general.RecvFailed?
    || (p.general.Packet? && p.general.msg.Ours() && p.general.msg.seqId == s.sync.seqId
        && p.general.msg.clockId != s.serverId)
    || (TakesFollowUp(s, p) && p.send.SendFailed?)
  }

  /** One iteration: the general socket is polled only if the event socket did not fail. */
  function PollStep(s: Slave, p: Poll): Slave {
    if p.event.RecvFailed? then EventStep(s, p) else GeneralStep(EventStep(s, p), p)
  }

  predicate PollFails(s: Slave, p: Poll) {
    p.event.RecvFailed? || GeneralFails(EventStep(s, p), p)
  }

  /** The samples counted by one iteration: none or one. */
  function Counted(s: Slave, p: Poll): seq<Sample> {
    if !p.event.RecvFailed? && TakesDelayResp(EventStep(s, p), p) then [SampleOf(EventStep(s, p), p)] else []
  }

  /** What makes a poll fail, in the fields of the packets it reads: an error on either socket, or one of
      our packets on the general socket, with the current sequence id, that comes from another
      server or is the Follow_Up waited for and finds the Delay_Req not going out. A Sync in the same
      poll that finds the slave idle sets the current id. */
  predicate FailingPackets(s: Slave, p: Poll) {
    var opens := s.sync.state.Init? && p.event.Packet? && p.event.msg.version == 2 && p.event.msg.domain == 0
                 && p.event.msg.msgType == 0;
    var id := if opens then p.event.msg.seqId else s.sync.seqId;
    || p.event.RecvFailed?
    || p.general.RecvFailed?
    || (p.general.Packet? && p.general.msg.version == 2 && p.general.msg.domain == 0 && p.general.msg.seqId == id
        && (p.general.msg.clockId != s.serverId
            || (p.general.msg.msgType == 8 && (opens || s.sync.state.Synced?) && p.send.SendFailed?)))
  }

  lemma PollFailsIff(s: Slave, p: Poll)
    ensures PollFails(s, p) <==> FailingPackets(s, p)
  {
  }

  // ---------- the client ----------

  /** `ptpc_ctx_t` and the `ptpc_sync_ctx_t` of the loop in progress. */
  class PtpClient {
    var serverId: u64
    var meanPathDelay: i64
    var ptpOffset: i64
    var state: SyncState
    var syncedCount: u8
    var seqId: u16
    var now: u64
    var timeoutTimer: u64
    var t1: u64
    var t2: u64
    var t3: u64
    var t4: u64

    ghost function View(): Slave
      reads this
    {
      Slave(serverId, Estimate(meanPathDelay, ptpOffset),
            SyncContext(state, syncedCount, seqId, now, timeoutTimer, t1, t2, t3, t4))
    }

    constructor ()
      ensures View() == Slave(0, Estimate(0, 0), SyncContext(Init, 0, 0, 0, 0, 0, 0, 0, 0))
    {
      serverId, meanPathDelay, ptpOffset := 0, 0, 0;
      state, syncedCount, seqId, now, timeoutTimer := Init, 0, 0, 0, 0;
      t1, t2, t3, t4 := 0, 0, 0, 0;
    }

    method BeginLoop(reading: u64)
      modifies this
      ensures View() == Begin(old(View()), reading)
      ensures state == Init && syncedCount == 0 && seqId == 0 && now == reading && timeoutTimer == reading
      ensures t1 == 0 && t2 == 0 && t3 == 0 && t4 == 0
      ensures unchanged(`serverId) && unchanged(`meanPathDelay) && unchanged(`ptpOffset)
    {
      state, syncedCount, seqId := Init, 0, 0;
      t1, t2, t3, t4 := 0, 0, 0, 0;
      now, timeoutTimer := reading, reading;
    }

    /** Only a two-step multicast announcement names the server. */
    method RecvAnnounce(r: Recv) returns (found: bool)
      modifies this`serverId
      ensures found <==> r.Packet? && r.msg.TwoStepAnnounce()
      ensures found <==>
                && r.Packet? && r.msg.version == 2 && r.msg.domain == 0 && r.msg.msgType == 0xb
                && Ring.And(r.msg.flags, 2) != 0 && Ring.And(r.msg.flags, 4) == 0
      ensures serverId == if found then r.msg.clockId else old(serverId)
    {
      found := false;
      if r.Packet? {
        TwoStepIff(r.msg);
        if r.msg.version == 2 && r.msg.domain == 0 && r.msg.msgType == MSG_ANNOUNCE {
          if r.msg.flags / 2 % 2 == 1 && !(r.msg.flags / 4 % 2 == 1) {
            serverId := r.msg.clockId;
            found := true;
          }
        }
      }
    }

    method RecvSync(p: Poll) returns (ret: int)
      modifies this
      ensures View() == EventStep(old(View()), p.(now := old(now)))
      ensures var taken := old(state) == Init && p.event.Packet? && p.event.msg.version == 2
                           && p.event.msg.domain == 0 && p.event.msg.msgType == 0;
              && t2 == p.arrival
              && (taken ==> state == Synced && seqId == p.event.msg.seqId && timeoutTimer == now)
              && (!taken ==> unchanged(`state) && unchanged(`seqId) && unchanged(`timeoutTimer))
      ensures ret == if p.event.RecvFailed? then -1 else 0
    {
      t2 := p.arrival;
      match p.event {
        case NoPacket => return 0;
        case RecvFailed => return -1;
        case Packet(msg) =>
          if state == Init {
            if msg.version == 2 && msg.domain == 0 && msg.msgType == MSG_SYNC {
              seqId := msg.seqId;
              state := Synced;
              timeoutTimer := now;
            }
          }
          return 0;
      }
    }

    method ResetSync()
      modifies this
      ensures View() == ResetStep(old(View()))
      ensures state == Init && timeoutTimer == now && t1 == 0 && t2 == 0 && t3 == 0 && t4 == 0
      ensures unchanged(`serverId) && unchanged(`meanPathDelay) && unchanged(`ptpOffset)
      ensures unchanged(`seqId) && unchanged(`syncedCount) && unchanged(`now)
    {
      t1, t2, t3, t4 := 0, 0, 0, 0;
      state := Init;
      timeoutTimer := now;
    }

    method TakeFollowUp(p: Poll, tstamp: Timestamp) returns (ret: int)
      modifies this
      ensures View() == FollowUpStep(old(View()), p, TstampToNs(tstamp))
      ensures t1 == TstampToNs(tstamp)
      ensures !p.send.SendFailed? ==> t3 == p.sent && state == FollowedUp && timeoutTimer == now
      ensures p.send.SendFailed? ==> unchanged(`t3) && unchanged(`state) && unchanged(`timeoutTimer)
      ensures ret == if p.send.SendFailed? then -1 else 0
    {
      t1 := TstampToNs(tstamp);
      if p.send.SendFailed? {
        return -1;
      }
      t3 := p.sent;
      state := FollowedUp;
      timeoutTimer := now;
      return 0;
    }

    method TakeDelayResp(tstamp: Timestamp)
      modifies this
      ensures View() == DelayRespStep(old(View()), Sample(old(t1), old(t2), old(t3), TstampToNs(tstamp)))
      ensures t4 == TstampToNs(tstamp) && syncedCount == (old(syncedCount) + 1) % 256 && timeoutTimer == now
      ensures unchanged(`state) && unchanged(`seqId) && unchanged(`t1) && unchanged(`t2) && unchanged(`t3)
    {
      hide MeanPathDelay, PtpOffset, TstampToNs;
      t4 := TstampToNs(tstamp);
      var newDelay := MeanPathDelay(Sample(t1, t2, t3, t4));
      if meanPathDelay == 0 || AsU64(newDelay) <= AsU64(meanPathDelay) {
        meanPathDelay := newDelay;
        ptpOffset := PtpOffset(t1, t2, meanPathDelay);
      }
      syncedCount := (syncedCount + 1) % 256;
      timeoutTimer := now;
    }

    method RecvGeneral(p: Poll) returns (ret: int)
      modifies this
      ensures View() == GeneralStep(old(View()), p)
      ensures ret == if GeneralFails(old(View()), p) then -1 else 0
    {
      match p.general {
        case NoPacket => return 0;
        case RecvFailed => return -1;
        case Packet(msg) =>
          if msg.version != 2 || msg.domain != 0 {
            return 0;
          }
          if msg.seqId != seqId {
            ResetSync();
            return 0;
          }
          if msg.clockId != serverId {
            return -1;
          }
          if state == Synced && msg.msgType == MSG_FOLLOW_UP {
            ret := TakeFollowUp(p, msg.tstamp);
            return;
          } else if state == FollowedUp && msg.msgType == MSG_DELAY_RESP {
            TakeDelayResp(msg.tstamp);
          }
          return 0;
      }
    }

    /** The first half of every loop body: read the clock, poll both sockets. */
    method PollSockets(p: Poll) returns (ret: int)
      modifies this
      ensures View() == PollStep(old(View()), p)
      ensures ret == if PollFails(old(View()), p) then -1 else 0
    {
      now := p.now;
      ret := RecvSync(p);
      if ret < 0 {
        return;
      }
      ret := RecvGeneral(p);
    }
  }
}
