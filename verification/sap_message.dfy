/** SAP messages in their buffer: the builder and the connection-address parser of lib/sap.c. */
module SapMessage {
  import opened MachineInt
  import opened Inet
  import opened SapText
  import SapReadBack

  const MSG_ID_HASH: u16 := 0x3776
  const MIN_SAP_C_MSG_SIZE: int := 27
  const MAX_IPV4_ASCII_SIZE: int := 15

  // ---------- what the parser computes ----------

  predicate IsSdp(t: string)
    requires |t| >= 3
  {
    t[0] == 'v' && t[1] == '=' && t[2] == '0'
  }

  predicate ConnectAt(t: string, p: nat)
    requires p + 1 < |t|
  {
    t[p] == 'c' && t[p + 1] == '='
  }

  /** How the scan for "c=" ends: at a hit, at its stop mark, or by reading past the buffer. */
  datatype Sweep = Hit(p: nat) | Miss | Past

  /** The pointer moves before it looks, and stops only if it stands on the mark. */
  function SweepFrom(t: string, p: nat, stop: int): (r: Sweep)
    requires p < |t|
    ensures r.Hit? ==> p < r.p && r.p + 1 < |t| && ConnectAt(t, r.p) && (p <= stop ==> r.p <= stop)
    ensures r.Hit? ==> forall q | p < q < r.p :: !ConnectAt(t, q)
    ensures r.Miss? ==> p <= stop < |t| && forall q | p < q <= stop && q + 1 < |t| :: !ConnectAt(t, q)
    ensures r.Miss? && p < stop && t[stop] == 'c' ==> stop + 1 < |t|
    ensures r.Past? ==> (stop < p || |t| <= stop + 1) && forall q | p < q < |t| - 1 :: !ConnectAt(t, q)
    decreases |t| - p
  {
    if p == stop then Miss
    else if p + 1 == |t| then Past
    else if t[p + 1] != 'c' then SweepFrom(t, p + 1, stop)
    else if p + 2 == |t| then Past
    else if t[p + 2] == '=' then Hit(p + 1)
    else SweepFrom(t, p + 1, stop)
  }

  predicate InIp4(t: string, p: nat) {
    p + 5 < |t| && t[p] == 'I' && t[p + 1] == 'N' && t[p + 3] == 'I' && t[p + 4] == 'P' && t[p + 5] == '4'
  }

  /** The last index the test for "IN IP4" reads, or tries to read. */
  function Ip4Top(t: string, p: nat): (top: nat)
    ensures p <= top <= p + 5
    ensures InIp4(t, p) ==> top == p + 5
  {
    if |t| <= p || t[p] != 'I' then p
    else if |t| <= p + 1 || t[p + 1] != 'N' then p + 1
    else if |t| <= p + 3 || t[p + 3] != 'I' then p + 3
    else if |t| <= p + 4 || t[p + 4] != 'P' then p + 4
    else p + 5
  }

  /** The last index the copy of the address from `at` on reads, or tries to read: the first slash,
      the fifteenth character, or the first index outside. */
  function CopyTop(t: string, at: nat, i: nat): (top: nat)
    requires i < MAX_IPV4_ASCII_SIZE
    ensures at + i <= top < at + MAX_IPV4_ASCII_SIZE
    ensures top == at + i || top <= |t|
    ensures forall q | at + i <= q < top && q < |t| :: t[q] != '/'
    ensures |t| <= top || t[top] == '/' || top == at + MAX_IPV4_ASCII_SIZE - 1
    decreases MAX_IPV4_ASCII_SIZE - i
  {
    if |t| <= at + i || t[at + i] == '/' || i == MAX_IPV4_ASCII_SIZE - 1 then at + i else CopyTop(t, at, i + 1)
  }

  lemma CopyStep(t: string, at: nat, i: nat)
    requires i < MAX_IPV4_ASCII_SIZE
    ensures CopyTop(t, at, i)
         == if |t| <= at + i || t[at + i] == '/' || i == MAX_IPV4_ASCII_SIZE - 1 then at + i else CopyTop(t, at, i + 1)
  {
  }

  /** A character array as a C string. */
  function CString(s: string): string {
    if s == "" || s[0] == '\0' then "" else [s[0]] + CString(s[1..])
  }

  lemma {:induction false} CStringOf(s: string, k: nat)
    requires '\0' !in s && k >= 1
    ensures CString(s + Nuls(k)) == s
  {
    if s == "" {
      assert s + Nuls(k) == Nuls(k);
    } else {
      assert (s + Nuls(k))[1..] == s[1..] + Nuls(k);
      CStringOf(s[1..], k);
    }
  }

  /** The parser returns, and `top` is the highest index it has read; or it reads past the buffer. */
  datatype Outcome = Found(ret: int, addr: Option<Addr>, top: nat) | ReadsPast

  /** The address after "c=IN IP4 ", if it has at most 14 characters before the slash. */
  function ReadAddr(t: string, at: nat): Outcome {
    var top := CopyTop(t, at, 0);
    if |t| <= top then ReadsPast
    else if t[top] != '/' then Found(-1, None, top)
    else
      var addr := InetPton(CString(t[at..top] + Nuls(at + MAX_IPV4_ASCII_SIZE - top)));
      Found(if addr.Some? then 1 else 0, addr, top)
  }

  /** What follows a "c=" at `p`. */
  function ReadConnect(t: string, p: nat): Outcome {
    var top := Ip4Top(t, p + 2);
    if |t| <= top then ReadsPast
    else if !InIp4(t, p + 2) then Found(-1, None, top)
    else ReadAddr(t, p + 9)
  }

  function SearchResult(t: string, len: nat): Outcome
    requires |t| == MAX_SDP_MSG_SIZE
  {
    if !IsSdp(t) then Found(-1, None, if t[0] != 'v' then 0 else if t[1] != '=' then 1 else 2)
    else
      var stop := len - 1 - MIN_SAP_C_MSG_SIZE;
      match SweepFrom(t, 4, stop)
      case Past => ReadsPast
      case Miss => Found(-1, None, if stop == 4 then 2 else if t[stop] == 'c' then stop + 1 else stop)
      case Hit(p) => ReadConnect(t, p)
  }

  // ---------- where the parser stays inside the buffer ----------

  /** With a length of 32 to 516 it never reads beyond the fifth byte before the end, whatever the text. */
  lemma StaysInside(t: string, len: nat)
    requires |t| == MAX_SDP_MSG_SIZE && 32 <= len <= 516
    ensures SearchResult(t, len).Found? && SearchResult(t, len).top <= len - 5
  {
    hide SweepFrom, CopyTop, Ip4Top, InIp4;
  }

  /** An SDP text without a connection line. */
  function NoConnection(): (t: string)
    ensures |t| == MAX_SDP_MSG_SIZE && IsSdp(t) && 'c' !in t
  {
    "v=0" + Nuls(509)
  }

  /** A length below 32 puts the stop mark behind the starting point, and the scan never meets it. */
  lemma ShortRunsPast(len: nat)
    requires len < 32
    ensures SearchResult(NoConnection(), len) == ReadsPast
  {
    hide SweepFrom, NoConnection;
  }

  /** An SDP text with its connection line at 489 and no slash behind it. */
  function LateConnection(): (t: string)
    ensures |t| == MAX_SDP_MSG_SIZE && IsSdp(t) && t[489..498] == "c=IN IP4 "
    ensures forall q | 4 <= q < 489 || 498 <= q < 512 :: t[q] == '\0'
  {
    "v=0" + Nuls(486) + "c=IN IP4 " + Nuls(14)
  }

  /** A length above 516 lets the scan come as far as 489, where the copy of the address runs out. */
  lemma LongRunsPast(len: nat)
    requires 516 < len
    ensures SearchResult(LateConnection(), len) == ReadsPast
  {
    hide SweepFrom, LateConnection, CopyTop;
    var t := LateConnection();
    assert forall i | 0 <= i < 9 :: t[489 + i] == t[489..498][i];
    assert ConnectAt(t, 489) && InIp4(t, 491);
    assert forall q | 4 < q < 489 :: !ConnectAt(t, q);
  }

  /** The lengths with which no SDP text takes the parser past the buffer. */
  lemma InsideIff(len: nat)
    ensures (forall t: string | |t| == MAX_SDP_MSG_SIZE && IsSdp(t) :: SearchResult(t, len).Found?)
       <==> 32 <= len <= 516
  {
    hide SearchResult, NoConnection, LateConnection, IsSdp;
    if 32 <= len <= 516 {
      forall t: string | |t| == MAX_SDP_MSG_SIZE && IsSdp(t) ensures SearchResult(t, len).Found? {
        StaysInside(t, len);
      }
    } else if len < 32 {
      ShortRunsPast(len);
    } else {
      LongRunsPast(len);
    }
  }

  // ---------- the message ----------

  class Message {
    var len: u16
    var flags: u8
    var authLen: u8
    var msgIdHash: u16
    var origin: Addr
    var payloadType: string
    const sdp: array<char>

    constructor ()
      ensures sdp.Length == MAX_SDP_MSG_SIZE && fresh(sdp)
    {
      len, flags, authLen, msgIdHash, origin, payloadType := 0, 0, 0, 0, Addr(0, 0, 0, 0), "";
      sdp := new char[MAX_SDP_MSG_SIZE](_ => '\0');
    }

    /** The lines `done` are in the buffer, the cursor is behind them, the rest is still zero. */
    ghost predicate Holds(cur: nat, done: seq<string>)
      reads sdp
    {
      sdp.Length == MAX_SDP_MSG_SIZE && Filled(sdp[..], cur, done)
    }

    method Clear()
      requires sdp.Length == MAX_SDP_MSG_SIZE
      modifies sdp
      ensures Holds(0, [])
    {
      forall i | 0 <= i < sdp.Length {
        sdp[i] := '\0';
      }
      assert sdp[..][0..] == Nuls(MAX_SDP_MSG_SIZE);
      assert Written([]) == "";
    }

    /** One snprintf at the cursor, limited to 64 bytes with the terminator, and the cursor's advance
        by the full length of the line. `inside` says that no write has left the buffer so far; the
        first that would ends the model's writing. */
    method Emit(cur: nat, line: string, inside: bool, ghost done: seq<string>) returns (next: nat, still: bool)
      requires sdp.Length == MAX_SDP_MSG_SIZE && (inside && cur <= MAX_SDP_MSG_SIZE ==> Holds(cur, done))
      modifies sdp
      ensures next == cur + |line|
      ensures still <==> inside && cur + Kept(line) < MAX_SDP_MSG_SIZE
      ensures still && next <= MAX_SDP_MSG_SIZE ==> Holds(next, done + [line])
    {
      hide Filled;
      var n := Kept(line);
      next, still := cur + |line|, inside && cur + n < MAX_SDP_MSG_SIZE;
      if still {
        ghost var before := sdp[..];
        forall i | 0 <= i < n {
          sdp[cur + i] := line[i];
        }
        sdp[cur + n] := '\0';
        assert sdp[..] == before[..cur] + line[..n] + "\0" + before[cur + n + 1..];
        if next <= MAX_SDP_MSG_SIZE {
          FilledOneMore(before, sdp[..], cur, line, done);
        }
      }
    }

    /** No write leaves the buffer exactly if the text is shorter than the buffer. Then it holds the
        twelve lines and zeros behind them, a reader gets the session's data back out of them, and `len`
        is the SAP header's size plus their length. */
    method Build(x: Session, sapFlags: u8) returns (ret: int, inside: bool)
      requires sdp.Length == MAX_SDP_MSG_SIZE && x.Valid()
      modifies this, sdp
      ensures ret == 0 && flags == sapFlags && authLen == 0 && msgIdHash == MSG_ID_HASH && origin == x.local
      ensures payloadType == "application/sdp"
      ensures inside <==> Fits(x)
      ensures inside ==> len == SAP_HDR_SIZE + |Written(Lines(x))| && Holds(len - SAP_HDR_SIZE, Lines(x))
      ensures inside ==> SapReadBack.Describes(sdp[..len - SAP_HDR_SIZE], x)
    {
      hide Written, Lines, HeadLines, TailLines, Join, SapReadBack.Describes;
      Clear();
      flags, authLen, msgIdHash, origin, payloadType := sapFlags, 0, MSG_ID_HASH, x.local, "application/sdp";
      var cur;
      cur, inside := EmitHead(x);
      cur, inside := EmitTail(x, cur, inside);
      len := (SAP_HDR_SIZE + cur) % TWO_16;
      JoinedLength(x);
      SapReadBack.ReadBack(x);
      assert inside ==> sdp[..cur] == sdp[..][..cur];
      return 0, inside;
    }

    /** Version, owner, session name, media title and connection. */
    method EmitHead(x: Session) returns (cur: nat, inside: bool)
      requires Holds(0, []) && x.Valid()
      modifies sdp
      ensures cur == |Join(HeadLines(x))| && (cur < MAX_SDP_MSG_SIZE ==> inside)
      ensures inside && cur <= MAX_SDP_MSG_SIZE ==> Holds(cur, HeadLines(x))
    {
      var h := HeadLines(x);
      JoinFive(h[0], h[1], h[2], h[3], h[4]);
      hide Holds, HeadLines, Join;
      cur, inside := Emit(0, h[0], true, []);
      cur, inside := Emit(cur, h[1], inside, [] + [h[0]]);
      cur, inside := Emit(cur, h[2], inside, [] + [h[0]] + [h[1]]);
      cur, inside := Emit(cur, h[3], inside, [] + [h[0]] + [h[1]] + [h[2]]);
      cur, inside := Emit(cur, h[4], inside, [] + [h[0]] + [h[1]] + [h[2]] + [h[3]]);
      assert h == [] + [h[0]] + [h[1]] + [h[2]] + [h[3]] + [h[4]] == [h[0], h[1], h[2], h[3], h[4]];
    }

    /** Time, media and attributes. */
    method EmitTail(x: Session, start: nat, sofar: bool) returns (cur: nat, inside: bool)
      requires sdp.Length == MAX_SDP_MSG_SIZE && x.Valid()
      requires start < MAX_SDP_MSG_SIZE ==> sofar
      requires sofar && start <= MAX_SDP_MSG_SIZE ==> Holds(start, HeadLines(x))
      modifies sdp
      ensures cur == start + |Join(TailLines(x))| && (inside <==> cur < MAX_SDP_MSG_SIZE)
      ensures inside ==> Holds(cur, Lines(x))
    {
      hide Holds, Lines, HeadLines, TailLines, Join;
      TailLengths(x);
      var t := TailLines(x);
      JoinSeven(t);
      ghost var done := HeadLines(x);
      cur, inside := Emit(start, t[0], sofar, done);
      cur, inside := Emit(cur, t[1], inside, done + [t[0]]);
      cur, inside := Emit(cur, t[2], inside, done + [t[0]] + [t[1]]);
      cur, inside := Emit(cur, t[3], inside, done + [t[0]] + [t[1]] + [t[2]]);
      cur, inside := Emit(cur, t[4], inside, done + [t[0]] + [t[1]] + [t[2]] + [t[3]]);
      cur, inside := Emit(cur, t[5], inside, done + [t[0]] + [t[1]] + [t[2]] + [t[3]] + [t[4]]);
      cur, inside := Emit(cur, t[6], inside, done + [t[0]] + [t[1]] + [t[2]] + [t[3]] + [t[4]] + [t[5]]);
      LinesAre(x);
    }

    /** The parser, on any text and any length. A read past the buffer ends the model's run. */
    method Search() returns (r: Outcome)
      requires sdp.Length == MAX_SDP_MSG_SIZE
      ensures r == SearchResult(sdp[..], len)
    {
      hide SweepFrom, ReadConnect;
      ghost var t := sdp[..];
      if sdp[0] != 'v' {
        return Found(-1, None, 0);
      } else if sdp[1] != '=' {
        return Found(-1, None, 1);
      } else if sdp[2] != '0' {
        return Found(-1, None, 2);
      }
      var sweep, top := FindConnect(4, len - 1 - MIN_SAP_C_MSG_SIZE);
      match sweep {
        case Past => return ReadsPast;
        case Miss => return Found(-1, None, if top == 4 then 2 else top);
        case Hit(p) => r := CheckConnect(p);
      }
    }

    /** The scan; `top` is the highest index it has read, or where it started. */
    method FindConnect(start: nat, stop: int) returns (r: Sweep, top: nat)
      requires start < sdp.Length
      ensures r == SweepFrom(sdp[..], start, stop)
      ensures r.Miss? ==> top == if start < stop && sdp[stop] == 'c' then stop + 1 else stop
    {
      ghost var t := sdp[..];
      var p := start;
      top := start;
      while p != stop
        invariant start <= p < |t| && (start <= stop ==> p <= stop)
        invariant SweepFrom(t, start, stop) == SweepFrom(t, p, stop)
        invariant top == if start < p && t[p] == 'c' then p + 1 else p
        decreases |t| - p
      {
        p := p + 1;
        if p == sdp.Length {
          return Past, top;
        }
        top := p;
        if sdp[p] == 'c' {
          if p + 1 == sdp.Length {
            return Past, top;
          }
          top := p + 1;
          if sdp[p + 1] == '=' {
            return Hit(p), top;
          }
        }
      }
      return Miss, top;
    }

    /** The five tests for "IN IP4", each made only if those before it held. */
    method CheckConnect(start: nat) returns (r: Outcome)
      ensures r == ReadConnect(sdp[..], start)
    {
      hide ReadAddr;
      var p := start + 2;
      if p >= sdp.Length {
        return ReadsPast;
      } else if sdp[p] != 'I' {
        return Found(-1, None, p);
      } else if p + 1 >= sdp.Length {
        return ReadsPast;
      } else if sdp[p + 1] != 'N' {
        return Found(-1, None, p + 1);
      } else if p + 3 >= sdp.Length {
        return ReadsPast;
      } else if sdp[p + 3] != 'I' {
        return Found(-1, None, p + 3);
      } else if p + 4 >= sdp.Length {
        return ReadsPast;
      } else if sdp[p + 4] != 'P' {
        return Found(-1, None, p + 4);
      } else if p + 5 >= sdp.Length {
        return ReadsPast;
      } else if sdp[p + 5] != '4' {
        return Found(-1, None, p + 5);
      }
      r := CopyAddr(p + 7);
    }

    method CopyAddr(at: nat) returns (r: Outcome)
      ensures r == ReadAddr(sdp[..], at)
    {
      hide CString, InetPton, CopyTop;
      ghost var t := sdp[..];
      var ascii := new char[MAX_IPV4_ASCII_SIZE](_ => '\0');
      var i := 0;
      while at + i < sdp.Length && sdp[at + i] != '/'
        invariant 0 <= i < MAX_IPV4_ASCII_SIZE
        invariant i > 0 ==> at + i <= sdp.Length
        invariant forall j | 0 <= j < i :: ascii[j] == t[at + j]
        invariant forall j | i <= j < MAX_IPV4_ASCII_SIZE :: ascii[j] == '\0'
        invariant CopyTop(t, at, 0) == CopyTop(t, at, i)
        decreases MAX_IPV4_ASCII_SIZE - i
      {
        CopyStep(t, at, i);
        ascii[i] := sdp[at + i];
        if i == MAX_IPV4_ASCII_SIZE - 1 {
          return Found(-1, None, at + i);
        }
        i := i + 1;
      }
      CopyStep(t, at, i);
      if at + i >= sdp.Length {
        return ReadsPast;
      }
      assert ascii[..] == t[at..at + i] + Nuls(MAX_IPV4_ASCII_SIZE - i);
      var addr := InetPton(CString(ascii[..]));
      r := Found(if addr.Some? then 1 else 0, addr, at + i);
    }
  }

  // ---------- lemmas about the buffer ----------

  ghost predicate Filled(t: string, cur: nat, done: seq<string>) {
    && |t| == MAX_SDP_MSG_SIZE && cur <= |t| && t[..cur] == Written(done) && t[cur..] == Nuls(|t| - cur)
  }

  lemma FilledOneMore(t: string, t': string, cur: nat, line: string, done: seq<string>)
    requires Filled(t, cur, done) && cur + Kept(line) < MAX_SDP_MSG_SIZE && cur + |line| <= MAX_SDP_MSG_SIZE
    requires t' == t[..cur] + line[..Kept(line)] + "\0" + t[cur + Kept(line) + 1..]
    ensures Filled(t', cur + |line|, done + [line])
  {
    hide Written;
    WrittenOneMore(done, line);
    var next := cur + |line|;
    forall i | cur <= i < |t| ensures t[i] == '\0' {
      assert t[i] == t[cur..][i - cur];
    }
    assert t'[..next] == t[..cur] + t'[cur..next];
    assert t'[cur..next] == Cut(line);
    assert t'[next..] == Nuls(|t'| - next);
  }

  lemma {:induction false} LinesAre(x: Session)
    requires x.Valid()
    ensures var t := TailLines(x);
            Lines(x) == HeadLines(x) + [t[0]] + [t[1]] + [t[2]] + [t[3]] + [t[4]] + [t[5]] + [t[6]]
  {
    hide HeadLines;
  }

  lemma WrittenOneMore(done: seq<string>, line: string)
    ensures Written(done + [line]) == Written(done) + Cut(line)
  {
    hide Cut, Join;
    assert CutAll(done + [line]) == CutAll(done) + [Cut(line)];
    JoinOne(CutAll(done), Cut(line));
  }
}
