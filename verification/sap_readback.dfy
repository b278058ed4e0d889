/** What a reader gets out of the SDP text: the twelve lines in their order, their numbers, addresses
    and clock identity, by readers that know nothing of how the text was printed. */
module SapReadBack {
  import opened MachineInt
  import opened Inet
  import opened SapText

  // ---------- readers ----------

  /** Digits from left to right. */
  function Horner(s: string): int {
    if s == "" then 0 else 10 * Horner(s[..|s| - 1]) + (s[|s| - 1] as int - '0' as int)
  }

  ghost predicate AllDigits(s: string) {
    s != "" && forall i | 0 <= i < |s| :: '0' <= s[i] <= '9'
  }

  /** A decimal number, with a sign if it is negative. */
  ghost predicate Numeral(s: string, v: int) {
    if s != "" && s[0] == '-' then AllDigits(s[1..]) && Horner(s[1..]) == -v else AllDigits(s) && Horner(s) == v
  }

  function HexValue(c: char): int {
    if '0' <= c <= '9' then c as int - '0' as int
    else if 'A' <= c <= 'F' then c as int - 'A' as int + 10
    else -1
  }

  ghost predicate IsOwner(line: string, now: int, local: Addr) {
    exists a, b, d ::
      line == "o=- " + a + " " + b + " IN IP4 " + d + "\r\n"
      && Numeral(a, now) && Numeral(b, now) && InetPton(d) == Some(local)
  }

  /** The line for the name, cut after 63 characters. */
  ghost predicate IsName(line: string, name: string) {
    && |line| == |name| + 4
    && forall i | 0 <= i < |line| :: line[i] == if i < 63 then ("s=" + name + "\r\n")[i] else '\0'
  }

  ghost predicate IsConnection(line: string, mcast: Addr) {
    exists d :: line == "c=IN IP4 " + d + "/15\r\n" && InetPton(d) == Some(mcast)
  }

  ghost predicate IsRtpmap(line: string, format: int, rate: int, channels: int) {
    exists f, r, c ::
      line == "a=rtpmap:98 L" + f + "/" + r + "/" + c + "\r\n"
      && Numeral(f, format) && Numeral(r, rate) && Numeral(c, channels)
  }

  /** Eight pairs of hexadecimal digits with dashes between them. */
  ghost predicate IsRefclk(line: string, id: seq<u8>) {
    && |line| == 57 && |id| == 8
    && line[..30] == "a=ts-refclk:ptp=IEEE1588-2008:" && line[53..] == ":0\r\n"
    && (forall k | 0 <= k < 8 :: 16 * HexValue(line[30 + 3 * k]) + HexValue(line[31 + 3 * k]) == id[k])
    && (forall q | 32 <= q < 53 && q % 3 == 2 :: line[q] == '-')
  }

  // ---------- the text ----------

  /** Where the twelve lines start, and the end. */
  ghost predicate Divides(text: string, at: seq<nat>) {
    |at| == 13 && at[0] == 0 && at[12] == |text| && forall k | 1 <= k < 13 :: at[k - 1] <= at[k] <= |text|
  }

  ghost predicate HeadSays(text: string, at: seq<nat>, x: Session)
    requires Divides(text, at)
  {
    && text[at[0]..at[1]] == "v=0\r\n"
    && IsOwner(text[at[1]..at[2]], x.now, x.local)
    && IsName(text[at[2]..at[3]], x.name)
    && text[at[3]..at[4]] == "i=2 channels: Left, Right\r\n"
    && IsConnection(text[at[4]..at[5]], x.mcast)
  }

  ghost predicate TailSays(text: string, at: seq<nat>, x: Session)
    requires Divides(text, at)
  {
    && text[at[5]..at[6]] == "t=0 0\r\n"
    && text[at[6]..at[7]] == "m=audio 5004 RTP/AVP 98\r\n"
    && IsRtpmap(text[at[7]..at[8]], x.format, if x.rate < 0x8000_0000 then x.rate else x.rate - TWO_32, x.channels)
    && text[at[8]..at[9]] == "a=recvonly\r\n"
    && text[at[9]..at[10]] == "a=ptime:1\r\n"
    && IsRefclk(text[at[10]..at[11]], x.serverId)
    && text[at[11]..at[12]] == "a=mediaclk:direct=0\r\n"
  }

  ghost predicate Describes(text: string, x: Session) {
    exists at :: Divides(text, at) && HeadSays(text, at, x) && TailSays(text, at, x)
  }

  // ---------- printing is read back ----------

  lemma {:induction false} HornerDigits(n: nat)
    ensures Horner(Digits(n)) == n
  {
    if n < 10 {
      DigitRoundTrip(n);
      assert Digits(n)[..0] == "";
    } else {
      HornerDigits(n / 10);
      DigitRoundTrip(n % 10);
      var s := Digits(n);
      assert s[..|s| - 1] == Digits(n / 10);
    }
  }

  lemma DecimalReads(n: int)
    ensures Numeral(Decimal(n), n)
  {
    HornerDigits(if n < 0 then -n else n);
    if n < 0 {
      assert Decimal(n)[1..] == Digits(-n);
    }
  }

  lemma OwnerReads(x: Session)
    ensures IsOwner(OwnerLine(x), x.now, x.local)
  {
    hide Decimal, Dotted, Numeral, InetPton;
    DecimalReads(x.now);
    InetPtonIff(Dotted(x.local), x.local);
  }

  lemma ConnectionReads(x: Session)
    ensures IsConnection(ConnectLine(x), x.mcast)
  {
    hide Dotted, InetPton;
    InetPtonIff(Dotted(x.mcast), x.mcast);
  }

  lemma RtpmapReads(x: Session)
    ensures IsRtpmap(RtpmapLine(x), x.format, if x.rate < 0x8000_0000 then x.rate else x.rate - TWO_32, x.channels)
  {
    hide Decimal, Numeral;
    DecimalReads(x.format);
    DecimalReads(AsI32(x.rate));
    DecimalReads(x.channels);
  }

  lemma NameReads(x: Session)
    ensures IsName(Cut(NameLine(x)), x.name)
  {
  }

  lemma HexDigit(d: nat)
    requires d < 16
    ensures HexValue("0123456789ABCDEF"[d]) == d
  {
    assert d == 0 || d == 1 || d == 2 || d == 3 || d == 4 || d == 5 || d == 6 || d == 7
        || d == 8 || d == 9 || d == 10 || d == 11 || d == 12 || d == 13 || d == 14 || d == 15;
  }

  lemma HexReads(b: u8)
    ensures 16 * HexValue(Hex(b)[0]) + HexValue(Hex(b)[1]) == b
  {
    HexDigit(b / 16);
    HexDigit(b % 16);
  }

  /** Four pairs and three dashes, whatever they are. */
  lemma FourPairs(a: string, b: string, c: string, d: string)
    requires |a| == 2 && |b| == 2 && |c| == 2 && |d| == 2
    ensures var s := a + "-" + b + "-" + c + "-" + d;
            && |s| == 11 && s[2] == '-' && s[5] == '-' && s[8] == '-'
            && s[0] == a[0] && s[1] == a[1] && s[3] == b[0] && s[4] == b[1]
            && s[6] == c[0] && s[7] == c[1] && s[9] == d[0] && s[10] == d[1]
  {
  }

  lemma TwoFours(pre: string, s: string, u: string, post: string)
    requires |pre| == 30 && |s| == 11 && |u| == 11 && |post| == 4
    ensures var line := pre + s + "-" + u + post;
            && |line| == 57 && line[..30] == pre && line[53..] == post && line[41] == '-'
            && (forall q | 30 <= q < 41 :: line[q] == s[q - 30]) && (forall q | 42 <= q < 53 :: line[q] == u[q - 42])
  {
  }

  lemma Regroup8(pre: string, h: seq<string>, post: string)
    requires |h| == 8
    ensures pre + h[0] + "-" + h[1] + "-" + h[2] + "-" + h[3] + "-" + h[4] + "-" + h[5] + "-" + h[6] + "-" + h[7] + post
         == pre + (h[0] + "-" + h[1] + "-" + h[2] + "-" + h[3]) + "-" + (h[4] + "-" + h[5] + "-" + h[6] + "-" + h[7]) + post
  {
  }

  lemma EightPairs(pre: string, h: seq<string>, post: string) returns (line: string)
    requires |pre| == 30 && |h| == 8 && |post| == 4 && forall k | 0 <= k < 8 :: |h[k]| == 2
    ensures line == pre + h[0] + "-" + h[1] + "-" + h[2] + "-" + h[3] + "-" + h[4] + "-" + h[5] + "-" + h[6] + "-" + h[7]
                    + post
    ensures |line| == 57 && line[..30] == pre && line[53..] == post
    ensures line[32] == '-' && line[35] == '-' && line[38] == '-' && line[41] == '-'
    ensures line[44] == '-' && line[47] == '-' && line[50] == '-'
    ensures line[30] == h[0][0] && line[31] == h[0][1] && line[33] == h[1][0] && line[34] == h[1][1]
    ensures line[36] == h[2][0] && line[37] == h[2][1] && line[39] == h[3][0] && line[40] == h[3][1]
    ensures line[42] == h[4][0] && line[43] == h[4][1] && line[45] == h[5][0] && line[46] == h[5][1]
    ensures line[48] == h[6][0] && line[49] == h[6][1] && line[51] == h[7][0] && line[52] == h[7][1]
  {
    var s, u := h[0] + "-" + h[1] + "-" + h[2] + "-" + h[3], h[4] + "-" + h[5] + "-" + h[6] + "-" + h[7];
    line := pre + s + "-" + u + post;
    Regroup8(pre, h, post);
    FourPairs(h[0], h[1], h[2], h[3]);
    FourPairs(h[4], h[5], h[6], h[7]);
    TwoFours(pre, s, u, post);
  }

  lemma RefclkReads(x: Session)
    requires |x.serverId| == 8
    ensures IsRefclk(RefclkLine(x), x.serverId)
  {
    hide Hex, HexValue;
    var id := x.serverId;
    var h := [Hex(id[0]), Hex(id[1]), Hex(id[2]), Hex(id[3]), Hex(id[4]), Hex(id[5]), Hex(id[6]), Hex(id[7])];
    var line := EightPairs("a=ts-refclk:ptp=IEEE1588-2008:", h, ":0\r\n");
    forall k | 0 <= k < 8 ensures 16 * HexValue(line[30 + 3 * k]) + HexValue(line[31 + 3 * k]) == id[k] {
      HexReads(id[k]);
      assert k == 0 || k == 1 || k == 2 || k == 3 || k == 4 || k == 5 || k == 6 || k == 7;
    }
  }

  // ---------- finding the lines ----------

  function Offset(lines: seq<string>, k: nat): nat
    requires k <= |lines|
  {
    |Join(lines[..k])|
  }

  lemma LineAt(lines: seq<string>, k: nat)
    requires k < |lines|
    ensures Offset(lines, k) + |lines[k]| == Offset(lines, k + 1) <= |Join(lines)|
    ensures Join(lines)[Offset(lines, k)..Offset(lines, k + 1)] == lines[k]
  {
    hide Join;
    var a, b := lines[..k], lines[k + 1..];
    assert lines[..k + 1] == a + [lines[k]];
    JoinOne(a, lines[k]);
    JoinSplit(lines[..k + 1], b);
    assert lines == lines[..k + 1] + b;
  }

  lemma Ends(lines: seq<string>)
    ensures Offset(lines, 0) == 0 && Offset(lines, |lines|) == |Join(lines)|
  {
    assert lines[..0] == [] && lines[..|lines|] == lines;
  }

  lemma CutLines(x: Session)
    requires x.Valid()
    ensures var w := CutAll(Lines(x));
            && |w| == 12
            && w[0] == VerLine() && w[1] == OwnerLine(x) && w[2] == Cut(NameLine(x)) && w[3] == TitleLine()
            && w[4] == ConnectLine(x) && w[5] == TimeLine() && w[6] == MediaLine() && w[7] == RtpmapLine(x)
            && w[8] == RecvonlyLine() && w[9] == PtimeLine() && w[10] == RefclkLine(x) && w[11] == MediaclkLine()
  {
    hide VerLine, TitleLine, OwnerLine, NameLine, ConnectLine, RtpmapLine, RefclkLine;
    hide TimeLine, MediaLine, RecvonlyLine, PtimeLine, MediaclkLine;
    LineLengths(x);
    FixedLengths();
  }

  /** Twelve lines are found again in their concatenation. */
  lemma {:induction false} Divided(w: seq<string>) returns (at: seq<nat>)
    requires |w| == 12
    ensures Divides(Join(w), at)
    ensures var text := Join(w);
            && text[at[0]..at[1]] == w[0] && text[at[1]..at[2]] == w[1] && text[at[2]..at[3]] == w[2]
            && text[at[3]..at[4]] == w[3] && text[at[4]..at[5]] == w[4] && text[at[5]..at[6]] == w[5]
            && text[at[6]..at[7]] == w[6] && text[at[7]..at[8]] == w[7] && text[at[8]..at[9]] == w[8]
            && text[at[9]..at[10]] == w[9] && text[at[10]..at[11]] == w[10] && text[at[11]..at[12]] == w[11]
  {
    hide Join, Offset;
    at := seq(13, k requires 0 <= k < 13 => Offset(w, k));
    Ends(w);
    forall k | 1 <= k < 13 ensures at[k - 1] <= at[k] <= |Join(w)| && Join(w)[at[k - 1]..at[k]] == w[k - 1] {
      LineAt(w, k - 1);
    }
  }

  lemma HeadReads(x: Session, text: string, at: seq<nat>)
    requires Divides(text, at)
    requires text[at[0]..at[1]] == VerLine() && text[at[1]..at[2]] == OwnerLine(x)
    requires text[at[2]..at[3]] == Cut(NameLine(x)) && text[at[3]..at[4]] == TitleLine()
    requires text[at[4]..at[5]] == ConnectLine(x)
    ensures HeadSays(text, at, x)
  {
    hide OwnerLine, NameLine, ConnectLine, Cut, IsOwner, IsName, IsConnection;
    OwnerReads(x);
    NameReads(x);
    ConnectionReads(x);
  }

  lemma TailReads(x: Session, text: string, at: seq<nat>)
    requires Divides(text, at) && |x.serverId| == 8
    requires text[at[5]..at[6]] == TimeLine() && text[at[6]..at[7]] == MediaLine() && text[at[7]..at[8]] == RtpmapLine(x)
    requires text[at[8]..at[9]] == RecvonlyLine() && text[at[9]..at[10]] == PtimeLine()
    requires text[at[10]..at[11]] == RefclkLine(x) && text[at[11]..at[12]] == MediaclkLine()
    ensures TailSays(text, at, x)
  {
    hide RtpmapLine, RefclkLine, IsRtpmap, IsRefclk;
    RtpmapReads(x);
    RefclkReads(x);
  }

  /** The text that the lines make up says what the session says. */
  lemma {:induction false} ReadBack(x: Session)
    requires x.Valid()
    ensures Describes(Written(Lines(x)), x)
  {
    hide Join, Lines, Cut, CutAll, HeadSays, TailSays;
    hide VerLine, TitleLine, OwnerLine, NameLine, ConnectLine, RtpmapLine, RefclkLine;
    hide TimeLine, MediaLine, RecvonlyLine, PtimeLine, MediaclkLine;
    var w := CutAll(Lines(x));
    CutLines(x);
    var at := Divided(w);
    HeadReads(x, Join(w), at);
    TailReads(x, Join(w), at);
  }
}
