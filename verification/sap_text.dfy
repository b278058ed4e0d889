/** The SDP text of lib/sap.c: its twelve lines, and what the size limit of snprintf makes of them. */
module SapText {
  import opened MachineInt
  import opened Inet

  const MAX_SDP_DESC_SIZE: int := 64
  const MAX_SDP_MSG_SIZE: int := 512
  const SAP_HDR_SIZE: int := 24

  /** What goes into a message; `now` is the wall clock in seconds, `serverId` the clock identity's
      bytes in memory order. */
  datatype Session = Session(name: string, now: i32, local: Addr, mcast: Addr,
                             format: u8, rate: u32, channels: u8, serverId: seq<u8>)
  {
    /** The name is a C string, the identity has eight bytes. */
    ghost predicate Valid() {
      '\0' !in name && |serverId| == 8
    }
  }

  /** `%d`. */
  function Decimal(n: int): string {
    if n < 0 then "-" + Digits(-n) else Digits(n)
  }

  lemma DecimalLength(n: int)
    requires -0x8000_0000 <= n < 0x8000_0000
    ensures 1 <= |Decimal(n)| <= 11 && 'c' !in Decimal(n)
  {
    assert Pow10(5) == 100_000 && Pow10(10) == 100_000 * Pow10(5);
    DigitsLength(if n < 0 then -n else n, 10);
  }

  lemma SmallDecimalLength(n: u8)
    ensures |Decimal(n)| <= 3
  {
    assert Pow10(3) == 1000;
    DigitsLength(n, 3);
  }

  /** `%02X`. */
  function Hex(b: u8): (s: string)
    ensures |s| == 2
  {
    ["0123456789ABCDEF"[b / 16], "0123456789ABCDEF"[b % 16]]
  }

  // ---------- the lines ----------

  function VerLine(): string { "v=0\r\n" }

  function TitleLine(): string { "i=2 channels: Left, Right\r\n" }

  function TimeLine(): string { "t=0 0\r\n" }

  function MediaLine(): string { "m=audio 5004 RTP/AVP 98\r\n" }

  function RecvonlyLine(): string { "a=recvonly\r\n" }

  function PtimeLine(): string { "a=ptime:1\r\n" }

  function MediaclkLine(): string { "a=mediaclk:direct=0\r\n" }

  function OwnerLine(x: Session): string {
    "o=- " + Decimal(x.now) + " " + Decimal(x.now) + " IN IP4 " + Dotted(x.local) + "\r\n"
  }

  function NameLine(x: Session): string {
    "s=" + x.name + "\r\n"
  }

  function ConnectLine(x: Session): string {
    "c=IN IP4 " + Dotted(x.mcast) + "/15\r\n"
  }

  function RtpmapLine(x: Session): string {
    "a=rtpmap:98 L" + Decimal(x.format) + "/" + Decimal(AsI32(x.rate)) + "/" + Decimal(x.channels) + "\r\n"
  }

  function RefclkLine(x: Session): string
    requires |x.serverId| == 8
  {
    var id := x.serverId;
    "a=ts-refclk:ptp=IEEE1588-2008:" + Hex(id[0]) + "-" + Hex(id[1]) + "-" + Hex(id[2]) + "-" + Hex(id[3]) + "-"
    + Hex(id[4]) + "-" + Hex(id[5]) + "-" + Hex(id[6]) + "-" + Hex(id[7]) + ":0\r\n"
  }

  /** Version, owner, session name, media title and connection. */
  function HeadLines(x: Session): seq<string> {
    [VerLine(), OwnerLine(x), NameLine(x), TitleLine(), ConnectLine(x)]
  }

  /** Time, media and attributes. */
  function TailLines(x: Session): seq<string>
    requires |x.serverId| == 8
  {
    [TimeLine(), MediaLine(), RtpmapLine(x), RecvonlyLine(), PtimeLine(), RefclkLine(x), MediaclkLine()]
  }

  function Lines(x: Session): seq<string>
    requires |x.serverId| == 8
  {
    HeadLines(x) + TailLines(x)
  }

  /** Every line of variable length but the session name is always shorter than the limit. */
  lemma LineLengths(x: Session)
    requires x.Valid()
    ensures |OwnerLine(x)| <= 52 && |NameLine(x)| == |x.name| + 4 && |ConnectLine(x)| <= 29
    ensures |RtpmapLine(x)| <= 34 && |RefclkLine(x)| == 57
  {
    DecimalLength(x.now);
    DottedChars(x.local);
    DottedChars(x.mcast);
    SmallDecimalLength(x.format);
    SmallDecimalLength(x.channels);
    DecimalLength(AsI32(x.rate));
  }

  lemma FixedLengths()
    ensures |VerLine()| == 5 && |TitleLine()| == 27 && |TimeLine()| == 7 && |MediaLine()| == 25
    ensures |RecvonlyLine()| == 12 && |PtimeLine()| == 11 && |MediaclkLine()| == 21
  {
  }

  // ---------- the buffer ----------

  function Nuls(n: nat): (s: string)
    ensures |s| == n
  {
    seq(n, _ => '\0')
  }

  /** How many characters of a line one snprintf writes before its terminator. */
  function Kept(line: string): (n: nat)
    ensures n <= |line|
  {
    if |line| < MAX_SDP_DESC_SIZE then |line| else MAX_SDP_DESC_SIZE - 1
  }

  /** What one snprintf and the advance by its return value leave in a zeroed buffer: a line of 64
      characters or more is cut after 63. */
  function Cut(line: string): (s: string)
    ensures |s| == |line|
  {
    if |line| < MAX_SDP_DESC_SIZE then line
    else line[..MAX_SDP_DESC_SIZE - 1] + Nuls(|line| - (MAX_SDP_DESC_SIZE - 1))
  }

  function Join(lines: seq<string>): string {
    if lines == [] then "" else Join(lines[..|lines| - 1]) + lines[|lines| - 1]
  }

  function CutAll(lines: seq<string>): seq<string> {
    seq(|lines|, i requires 0 <= i < |lines| => Cut(lines[i]))
  }

  /** What the buffer holds after all the lines. */
  function Written(lines: seq<string>): string {
    Join(CutAll(lines))
  }

  lemma Assoc(a: string, b: string, c: string)
    ensures a + b + c == a + (b + c)
  {
  }

  lemma {:induction false} JoinSplit(a: seq<string>, b: seq<string>)
    ensures Join(a + b) == Join(a) + Join(b)
    decreases b
  {
    if b == [] {
      assert a + b == a;
    } else {
      var init, last := b[..|b| - 1], b[|b| - 1];
      JoinSplit(a, init);
      assert (a + b)[..|a + b| - 1] == a + init;
      Assoc(Join(a), Join(init), last);
    }
  }

  lemma JoinOne(a: seq<string>, line: string)
    ensures Join(a + [line]) == Join(a) + line
  {
    assert (a + [line])[..|a|] == a;
  }

  lemma JoinFive(a: string, b: string, c: string, d: string, e: string)
    ensures Join([a, b, c, d, e]) == a + b + c + d + e
  {
    assert Join([]) == "";
    hide Join;
    JoinOne([], a);
    assert [] + [a] == [a];
    JoinOne([a], b);
    assert [a] + [b] == [a, b];
    JoinOne([a, b], c);
    assert [a, b] + [c] == [a, b, c];
    JoinOne([a, b, c], d);
    assert [a, b, c] + [d] == [a, b, c, d];
    JoinOne([a, b, c, d], e);
    assert [a, b, c, d] + [e] == [a, b, c, d, e];
  }

  lemma {:induction false} TailLengths(x: Session)
    requires x.Valid()
    ensures var t := TailLines(x);
            && |t| == 7 && |t[0]| == 7 && |t[1]| == 25 && |t[2]| <= 34 && |t[3]| == 12
            && |t[4]| == 11 && |t[5]| == 57 && |t[6]| == 21
  {
    hide TimeLine, MediaLine, RtpmapLine, RecvonlyLine, PtimeLine, RefclkLine, MediaclkLine;
    hide OwnerLine, NameLine, ConnectLine;
    LineLengths(x);
    FixedLengths();
  }

  lemma JoinSeven(t: seq<string>)
    requires |t| == 7
    ensures |Join(t)| == |t[0]| + |t[1]| + |t[2]| + |t[3]| + |t[4]| + |t[5]| + |t[6]|
  {
    JoinFive(t[0], t[1], t[2], t[3], t[4]);
    JoinOne(t[..5], t[5]);
    JoinOne(t[..5] + [t[5]], t[6]);
    hide Join;
    assert t[..5] == [t[0], t[1], t[2], t[3], t[4]] && t == t[..5] + [t[5]] + [t[6]];
  }

  lemma CutNone(t: seq<string>)
    requires |t| == 7
    requires |t[0]| < 64 && |t[1]| < 64 && |t[2]| < 64 && |t[3]| < 64 && |t[4]| < 64 && |t[5]| < 64 && |t[6]| < 64
    ensures CutAll(t) == t
  {
    assert forall i | 0 <= i < 7 :: CutAll(t)[i] == t[i];
  }

  lemma TailText(x: Session)
    requires x.Valid()
    ensures CutAll(TailLines(x)) == TailLines(x)
    ensures 100 <= |Join(TailLines(x))| <= 167
  {
    hide Join, TailLines;
    TailLengths(x);
    JoinSeven(TailLines(x));
    CutNone(TailLines(x));
  }

  lemma CutFive(a: string, b: string, c: string, d: string, e: string)
    requires |a| < MAX_SDP_DESC_SIZE && |b| < MAX_SDP_DESC_SIZE && |d| < MAX_SDP_DESC_SIZE && |e| < MAX_SDP_DESC_SIZE
    ensures CutAll([a, b, c, d, e]) == [a, b, Cut(c), d, e]
  {
  }

  lemma Regroup(a: string, b: string, c: string, d: string, e: string, f: string)
    ensures a + b + c + d + e + f == (a + b) + c + (d + e + f)
  {
  }

  /** Seven more lines after five: the shape of the whole text. */
  lemma TwelveLines(a: string, b: string, c: string, d: string, e: string, tail: seq<string>)
    requires |a| < MAX_SDP_DESC_SIZE && |b| < MAX_SDP_DESC_SIZE && |d| < MAX_SDP_DESC_SIZE && |e| < MAX_SDP_DESC_SIZE
    requires CutAll(tail) == tail
    ensures Join([a, b, c, d, e] + tail) == (a + b) + c + (d + e + Join(tail))
    ensures Written([a, b, c, d, e] + tail) == (a + b) + Cut(c) + (d + e + Join(tail))
  {
    hide Join, Cut;
    JoinSplit([a, b, c, d, e], tail);
    JoinFive(a, b, c, d, e);
    Regroup(a, b, c, d, e, Join(tail));
    CutFive(a, b, c, d, e);
    assert CutAll([a, b, c, d, e] + tail) == CutAll([a, b, c, d, e]) + CutAll(tail);
    JoinSplit([a, b, Cut(c), d, e], tail);
    JoinFive(a, b, Cut(c), d, e);
    Regroup(a, b, Cut(c), d, e, Join(tail));
  }

  /** The text before and after the session name. */
  function Before(x: Session): string {
    VerLine() + OwnerLine(x)
  }

  function After(x: Session): string
    requires |x.serverId| == 8
  {
    TitleLine() + ConnectLine(x) + Join(TailLines(x))
  }

  lemma {:induction false} WholeText(x: Session)
    requires x.Valid()
    ensures Written(Lines(x)) == Before(x) + Cut(NameLine(x)) + After(x)
    ensures Join(Lines(x)) == Before(x) + NameLine(x) + After(x)
    ensures |Before(x)| + |NameLine(x)| + |After(x)| <= 284 + |x.name|
    ensures 100 <= |Join(TailLines(x))|
  {
    hide VerLine, TitleLine, OwnerLine, NameLine, ConnectLine, TailLines, Join, Cut, Written;
    LineLengths(x);
    FixedLengths();
    TailText(x);
    TwelveLines(VerLine(), OwnerLine(x), NameLine(x), TitleLine(), ConnectLine(x), TailLines(x));
  }

  lemma NameHasNoNul(x: Session)
    requires x.Valid()
    ensures '\0' !in NameLine(x)
  {
  }

  lemma Middle(a: string, b: string, c: string, i: nat)
    requires i < |b|
    ensures (a + b + c)[|a| + i] == b[i]
  {
  }

  lemma CutIff(before: string, line: string, after: string)
    requires '\0' !in line
    ensures before + Cut(line) + after == before + line + after <==> |line| < MAX_SDP_DESC_SIZE
  {
    if |line| >= MAX_SDP_DESC_SIZE {
      Middle(before, Cut(line), after, 63);
      Middle(before, line, after, 63);
      assert Cut(line)[63] == '\0';
      assert line[63] in line;
    }
  }

  /** The text is the plain concatenation of its lines exactly when the name has at most 59
      characters; with the configuration's 31 it is, and then takes at most 315 bytes. */
  lemma ExactIff(x: Session)
    requires x.Valid()
    ensures Written(Lines(x)) == Join(Lines(x)) <==> |x.name| <= 59
    ensures |x.name| <= 31 ==> |Join(Lines(x))| <= 315
  {
    hide Before, After, NameLine, TailLines, Lines, Join, Written, Cut;
    WholeText(x);
    LineLengths(x);
    NameHasNoNul(x);
    CutIff(Before(x), NameLine(x), After(x));
  }

  // ---------- texts that fit ----------

  /** The text and its terminator fit the buffer. */
  predicate Fits(x: Session)
    requires |x.serverId| == 8
  {
    |Join(Lines(x))| < MAX_SDP_MSG_SIZE
  }

  lemma JoinedLength(x: Session)
    requires x.Valid()
    ensures |Join(Lines(x))| == |Join(HeadLines(x))| + |Join(TailLines(x))| == |Written(Lines(x))|
  {
    hide Join, HeadLines, TailLines, Before, After, NameLine, Cut, Written;
    WholeText(x);
    JoinSplit(HeadLines(x), TailLines(x));
  }

  /** The session with the longest numbers and addresses, and a name of n characters. */
  function Longest(n: nat): (x: Session)
    ensures |x.name| == n && x.Valid()
  {
    var all := Addr(255, 255, 255, 255);
    Session(seq(n, _ => 'x'), -0x8000_0000, all, all, 255, 0x8000_0000, 255, [0, 0, 0, 0, 0, 0, 0, 0])
  }

  lemma LongestNumbers()
    ensures |Digits(255)| == 3 && |Digits(0x8000_0000)| == 10
  {
    assert Pow10(2) == 100 && Pow10(4) == 10_000 && Pow10(9) == 100_000 * Pow10(4);
    DigitsLength(255, 3);
    DigitsAtLeast(255, 2);
    DigitsLength(0x8000_0000, 10);
    DigitsAtLeast(0x8000_0000, 9);
  }

  lemma LongestLines(n: nat)
    ensures var x := Longest(n);
            |OwnerLine(x)| == 52 && |NameLine(x)| == n + 4 && |ConnectLine(x)| == 29 && |RtpmapLine(x)| == 34
  {
    hide Digits;
    LongestNumbers();
  }

  lemma LongestText(n: nat)
    ensures |Join(Lines(Longest(n)))| == 284 + n
  {
    hide Join, Longest, VerLine, OwnerLine, NameLine, TitleLine, ConnectLine, RtpmapLine, RefclkLine, Written, Lines;
    hide TimeLine, MediaLine, RecvonlyLine, PtimeLine, MediaclkLine;
    var x := Longest(n);
    LongestLines(n);
    LineLengths(x);
    FixedLengths();
    JoinedLength(x);
    JoinSeven(TailLines(x));
    JoinFive(VerLine(), OwnerLine(x), NameLine(x), TitleLine(), ConnectLine(x));
  }

  /** The lengths of name with which every session fits; the configuration allows 31. */
  lemma FitsIff(n: nat)
    ensures (forall x: Session | x.Valid() && |x.name| == n :: Fits(x)) <==> n <= 227
  {
    hide Join, Lines, Longest, Before, After, NameLine, Written, Cut;
    LongestText(n);
    forall x: Session | x.Valid() && |x.name| == n ensures |Join(Lines(x))| <= 284 + n {
      WholeText(x);
    }
    assert !Fits(Longest(n)) <==> 227 < n;
  }
}
