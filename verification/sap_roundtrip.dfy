/** Building a message and searching it for the connection address. */
module SapRoundTrip {
  import opened MachineInt
  import opened Inet
  import opened SapText
  import SapReadBack
  import opened SapMessage
  import opened SapResult

  ghost predicate NoConnect(s: string) {
    forall i | 0 <= i < |s| - 1 :: s[i] == 'c' ==> s[i + 1] != '='
  }

  /** The part of the session name that makes it into the buffer. */
  function ShownName(x: Session): string {
    if |x.name| <= 61 then x.name else x.name[..61]
  }

  lemma NoConnectJoin(a: string, b: string)
    requires NoConnect(a) && NoConnect(b) && (a != "" ==> a[|a| - 1] != 'c')
    ensures NoConnect(a + b)
  {
  }

  lemma OwnerHasNoC(x: Session)
    ensures 'c' !in OwnerLine(x)
  {
    hide Decimal, Dotted;
    DecimalLength(x.now);
    DottedChars(x.local);
    assert 'c' !in Dotted(x.local);
  }

  lemma OwnerNoConnect(x: Session)
    ensures NoConnect(OwnerLine(x)) && OwnerLine(x) != "" && OwnerLine(x)[|OwnerLine(x)| - 1] == '\n'
  {
    OwnerHasNoC(x);
    hide Decimal, Dotted;
  }

  /** The name line shows "c=" exactly if the name does. */
  lemma NameNoConnectIff(x: Session)
    requires x.Valid()
    ensures NoConnect(Cut(NameLine(x))) <==> NoConnect(ShownName(x))
    ensures Cut(NameLine(x))[|NameLine(x)| - 1] != 'c'
  {
    var line, shown := Cut(NameLine(x)), ShownName(x);
    assert line[0] == 's' && line[1] == '=';
    assert forall i | 0 <= i < |shown| :: line[i + 2] == shown[i];
    assert forall i | |shown| + 2 <= i < |line| :: line[i] == '\r' || line[i] == '\n' || line[i] == '\0';
    if !NoConnect(shown) {
      var i :| 0 <= i < |shown| - 1 && shown[i] == 'c' && shown[i + 1] == '=';
      assert line[i + 2] == 'c' && line[i + 2 + 1] == '=';
    }
    if NoConnect(shown) {
      forall i | 0 <= i < |line| - 1 && line[i] == 'c' ensures line[i + 1] != '=' {
        assert 2 <= i < |shown| + 2 && shown[i - 2] == 'c';
        assert i - 2 + 1 < |shown| ==> shown[i - 2 + 1] != '=';
      }
    }
  }

  lemma TitleNoConnect()
    ensures NoConnect(TitleLine()) && TitleLine()[|TitleLine()| - 1] == '\n'
  {
  }

  /** What the parser makes of "c=IN IP4 <address>/", wherever it meets it first. */
  lemma ReadsConnect(t: string, p: nat, a: Addr)
    requires p + |Dotted(a)| + 10 <= |t|
    requires t[p..p + |Dotted(a)| + 10] == "c=IN IP4 " + Dotted(a) + "/"
    ensures p + 1 < |t| && ConnectAt(t, p)
    ensures ReadConnect(t, p) == Expected(a, p)
  {
    hide Dotted, ReadAddr;
    DottedChars(a);
    var d := Dotted(a);
    var s := "c=IN IP4 " + d + "/";
    forall i | 0 <= i < |s| ensures t[p + i] == s[i] {
      assert t[p + i] == t[p..p + |d| + 10][i];
    }
    assert t[p] == s[0] && t[p + 1] == s[1];
    assert t[p + 2] == s[2] && t[p + 3] == s[3] && t[p + 5] == s[5] && t[p + 6] == s[6] && t[p + 7] == s[7];
    forall q | p + 9 <= q < p + 9 + |d| ensures t[q] == d[q - (p + 9)] {
      assert t[q] == s[q - p];
    }
    assert t[p + 9 + |d|] == s[9 + |d|];
    ReadsAddr(t, p + 9, a);
  }

  /** An address of up to 14 characters is found, one of 15 is refused, and nothing beyond either is read. */
  function Expected(a: Addr, p: nat): Outcome {
    if |Dotted(a)| <= 14 then Found(1, Some(a), p + 9 + |Dotted(a)|) else Found(-1, None, p + 23)
  }

  lemma {:induction false} ReadsAddr(t: string, at: nat, a: Addr)
    requires at >= 9 && at + |Dotted(a)| < |t|
    requires t[at + |Dotted(a)|] == '/'
    requires forall q | at <= q < at + |Dotted(a)| :: t[q] == Dotted(a)[q - at]
    ensures ReadAddr(t, at) == Expected(a, at - 9)
  {
    hide Dotted, CString, InetPton, CopyTop;
    var d := Dotted(a);
    DottedChars(a);
    assert CopyTop(t, at, 0) == at + if |d| <= 14 then |d| else 14;
    if |d| <= 14 {
      assert t[at..at + |d|] == d;
      PtonReads(a, MAX_IPV4_ASCII_SIZE - |d|);
    }
  }

  lemma PtonReads(a: Addr, k: nat)
    requires k >= 1
    ensures InetPton(CString(Dotted(a) + Nuls(k))) == Some(a)
  {
    hide Dotted, CString, InetPton;
    DottedChars(a);
    assert '\0' !in Dotted(a);
    CStringOf(Dotted(a), k);
    InetPtonIff(Dotted(a), a);
  }

  /** Where the connection line starts. */
  function ConnectStart(x: Session): nat {
    |VerLine()| + |OwnerLine(x)| + |NameLine(x)| + |TitleLine()|
  }

  /** The buffer as five pieces: version, the lines that might hide a "c=", connection, the rest, zeros. */
  lemma Pieces(x: Session, t: string, n: nat)
    requires x.Valid() && Filled(t, n, Lines(x))
    ensures var mid := OwnerLine(x) + Cut(NameLine(x)) + TitleLine();
            && |t| == MAX_SDP_MSG_SIZE && n == |Written(Lines(x))|
            && ConnectStart(x) + |ConnectLine(x)| + 100 <= n <= |t|
            && t[..5] == VerLine() && t[5..ConnectStart(x)] == mid
            && t[ConnectStart(x)..ConnectStart(x) + |ConnectLine(x)|] == ConnectLine(x)
  {
    hide OwnerLine, NameLine, TitleLine, ConnectLine, VerLine, TailLines, Lines, Join, Cut, Written;
    hide RtpmapLine, RefclkLine;
    FixedLengths();
    LineLengths(x);
    WholeText(x);
    FivePieces(t, n, VerLine(), OwnerLine(x), Cut(NameLine(x)), TitleLine(), ConnectLine(x), Join(TailLines(x)));
  }

  lemma Slice(t: string, a: nat, b: nat, i: nat, j: nat)
    requires a <= b <= |t| && i <= j <= b - a
    ensures t[a..b][i..j] == t[a + i..a + j]
  {
    var x, y := t[a..b][i..j], t[a + i..a + j];
    forall k | 0 <= k < |x| ensures x[k] == y[k] {
      assert x[k] == t[a..b][i + k] == t[a + (i + k)];
      assert y[k] == t[(a + i) + k];
    }
  }

  lemma FivePieces(t: string, n: nat, a: string, b: string, c: string, d: string, e: string, f: string)
    requires n <= |t| && t[..n] == (a + b) + c + (d + e + f)
    ensures var i, j := |a|, |a| + |b| + |c| + |d|;
            j + |e| + |f| == n && t[..i] == a && t[i..j] == b + c + d && t[j..j + |e|] == e
  {
    var i, j := |a|, |a| + |b| + |c| + |d|;
    FourPieces(t[..n], a, b + c + d, e, f) by {
      Regrouped(a, b, c, d, e, f);
    }
    Slice(t, 0, n, 0, i);
    Slice(t, 0, n, i, j);
    Slice(t, 0, n, j, j + |e|);
  }

  lemma Regrouped(a: string, b: string, c: string, d: string, e: string, f: string)
    ensures (a + b) + c + (d + e + f) == a + (b + c + d) + e + f
  {
  }

  lemma FourPieces(w: string, a: string, m: string, e: string, f: string)
    requires w == a + m + e + f
    ensures var i, j := |a|, |a| + |m|;
            |w| == j + |e| + |f| && w[0..i] == a && w[i..j] == m && w[j..j + |e|] == e
  {
  }

  /** Nothing before the connection line looks like one, exactly if the name does not. */
  lemma NothingBeforeIff(x: Session, t: string, n: nat)
    requires x.Valid() && Filled(t, n, Lines(x))
    ensures |t| == MAX_SDP_MSG_SIZE && ConnectStart(x) + 1 < |t|
    ensures (forall q | 5 <= q < ConnectStart(x) :: !ConnectAt(t, q)) <==> NoConnect(ShownName(x))
  {
    hide OwnerLine, NameLine, TitleLine, ConnectLine, VerLine, TailLines, Lines, Join, Cut, Written, ShownName, Filled;
    FixedLengths();
    Pieces(x, t, n);
    NameNoConnectIff(x);
    OwnerNoConnect(x);
    TitleNoConnect();
    MiddleIff(t, ConnectStart(x), OwnerLine(x), Cut(NameLine(x)), TitleLine());
  }

  lemma MiddleIff(t: string, end: nat, b: string, c: string, d: string)
    requires 5 <= end < |t| && t[5..end] == b + c + d
    requires NoConnect(b) && b != "" && b[|b| - 1] == '\n'
    requires NoConnect(d) && d != "" && d[|d| - 1] == '\n'
    requires c != "" ==> c[|c| - 1] != 'c'
    ensures (forall q | 5 <= q < end :: !ConnectAt(t, q)) <==> NoConnect(c)
  {
    var m := b + c + d;
    assert forall i | 0 <= i < |m| :: t[5 + i] == t[5..end][i];
    if NoConnect(c) {
      NoConnectJoin(b, c);
      NoConnectJoin(b + c, d);
      forall q | 5 <= q < end ensures !ConnectAt(t, q) {
        assert t[q] == m[q - 5];
        if q + 1 < end {
          assert t[q + 1] == m[q - 5 + 1];
        }
      }
    } else {
      var i :| 0 <= i < |c| - 1 && c[i] == 'c' && c[i + 1] == '=';
      assert t[5 + |b| + i] == m[|b| + i] == 'c' && t[5 + |b| + i + 1] == m[|b| + i + 1] == '=';
      assert ConnectAt(t, 5 + |b| + i);
    }
  }

  lemma FirstIff(t: string, p: nat, stop: int)
    requires 5 <= p <= stop && p + 1 < |t| && ConnectAt(t, p)
    ensures SweepFrom(t, 4, stop) == Hit(p) <==> forall q | 5 <= q < p :: !ConnectAt(t, q)
  {
    hide SweepFrom;
  }

  lemma {:induction false} SearchBuilt(x: Session, t: string, n: nat)
    requires x.Valid() && Filled(t, n, Lines(x))
    ensures |t| == MAX_SDP_MSG_SIZE && IsSdp(t)
    ensures SweepFrom(t, 4, SAP_HDR_SIZE + n - 1 - MIN_SAP_C_MSG_SIZE) == Hit(ConnectStart(x))
       <==> NoConnect(ShownName(x))
    ensures NoConnect(ShownName(x)) ==> SearchResult(t, SAP_HDR_SIZE + n) == Expected(x.mcast, ConnectStart(x))
  {
    hide OwnerLine, NameLine, TitleLine, TailLines, Lines, Join, Cut, Written, ShownName, Filled, NoConnect, SweepFrom;
    hide ReadConnect, Expected, ConnectAt;
    Pieces(x, t, n);
    NothingBeforeIff(x, t, n);
    assert t[0] == t[..5][0] && t[1] == t[..5][1] && t[2] == t[..5][2];
    var p := ConnectStart(x);
    ConnectPrefix(x, t, p);
    ReadsConnect(t, p, x.mcast);
    FirstIff(t, p, SAP_HDR_SIZE + n - 1 - MIN_SAP_C_MSG_SIZE);
  }

  lemma ConnectPrefix(x: Session, t: string, p: nat)
    requires p + |ConnectLine(x)| <= |t| && t[p..p + |ConnectLine(x)|] == ConnectLine(x)
    ensures p + |Dotted(x.mcast)| + 10 <= |t|
    ensures t[p..p + |Dotted(x.mcast)| + 10] == "c=IN IP4 " + Dotted(x.mcast) + "/"
  {
    hide Dotted;
    var k := |Dotted(x.mcast)| + 10;
    assert t[p..p + k] == t[p..p + |ConnectLine(x)|][..k];
  }

  lemma FoundAt(t: string, len: nat, p: nat)
    requires |t| == MAX_SDP_MSG_SIZE && IsSdp(t)
    requires 5 <= p <= len - 1 - MIN_SAP_C_MSG_SIZE && p + 1 < |t| && ConnectAt(t, p)
    requires forall q | 5 <= q < p :: !ConnectAt(t, q)
    ensures SearchResult(t, len) == ReadConnect(t, p)
  {
    hide SweepFrom, ReadConnect;
    FirstIff(t, p, len - 1 - MIN_SAP_C_MSG_SIZE);
  }

  // ---------- names that spell a connection ----------

  /** The first "c=" of a text. */
  ghost predicate FirstAt(s: string, i: nat) {
    i + 1 < |s| && ConnectAt(s, i) && forall j | 0 <= j < i :: !ConnectAt(s, j)
  }

  /** At i, as far as the parser looks, the text spells a connection to `a`. */
  predicate SpelledAt(s: string, i: nat, a: Addr) {
    var k := i + 9 + |Dotted(a)|;
    InIp4(s, i + 2) && k < |s| && s[i + 9..k] == Dotted(a) && s[k] == '/'
  }

  ghost predicate Spells(s: string, a: Addr) {
    exists i: nat :: FirstAt(s, i) && SpelledAt(s, i, a)
  }

  predicate Returns(r: Outcome, a: Addr) {
    r.Found? && r.ret == 1 && r.addr == Some(a)
  }

  /** The address that the session makes the parser return. */
  ghost predicate Obtained(x: Session, a: Addr) {
    |Dotted(a)| <= 14 && if NoConnect(ShownName(x)) then a == x.mcast else Spells(ShownName(x), a)
  }

  lemma {:induction false} FirstOf(s: string, i: nat) returns (k: nat)
    requires i + 1 < |s| && ConnectAt(s, i)
    ensures FirstAt(s, k)
    decreases i
  {
    if j: nat :| j < i && ConnectAt(s, j) {
      k := FirstOf(s, j);
    } else {
      k := i;
    }
  }

  /** Characters that neither continue "IN IP4" nor end an address. */
  predicate Dull(c: char) {
    c != 'I' && c != 'N' && c != 'P' && c != '4' && c != '/'
  }

  /** From `base` on the buffer holds s, and after it nothing but dull characters up to `end`. */
  ghost predicate Shows(t: string, base: nat, s: string, end: nat) {
    && base + |s| + 27 <= end <= |t|
    && (forall q | base <= q < base + |s| :: t[q] == s[q - base])
    && (forall q | base + |s| <= q < end :: Dull(t[q]))
  }

  lemma Ip4Same(t: string, base: nat, s: string, end: nat, i: nat)
    requires Shows(t, base, s, end) && i <= |s|
    ensures InIp4(t, base + i) <==> InIp4(s, i)
  {
    var p := base + i;
    if InIp4(t, p) {
      assert !Dull(t[p]) && !Dull(t[p + 1]) && !Dull(t[p + 3]) && !Dull(t[p + 4]) && !Dull(t[p + 5]);
    }
  }

  /** What is copied from a name is returned exactly if it is an address and its slash. */
  lemma CopiedFromName(t: string, base: nat, s: string, end: nat, k: nat, a: Addr)
    requires Shows(t, base, s, end) && '\0' !in s && k <= |s| + 7
    ensures var r := ReadAddr(t, base + k);
            && r.Found? && r.top < end
            && (Returns(r, a) <==>
                  && |Dotted(a)| <= 14 && k + |Dotted(a)| < |s|
                  && s[k..k + |Dotted(a)|] == Dotted(a) && s[k + |Dotted(a)|] == '/')
  {
    hide Dotted, CString, InetPton, CopyTop;
    var at, d := base + k, Dotted(a);
    var top := CopyTop(t, at, 0);
    DottedChars(a);
    if t[top] == '/' {
      var m := top - at;
      assert !Dull(t[top]);
      assert t[at..top] == s[k..k + m];
      CStringOf(s[k..k + m], MAX_IPV4_ASCII_SIZE - m);
      InetPtonIff(s[k..k + m], a);
    }
    if |d| <= 14 && k + |d| < |s| && s[k..k + |d|] == d && s[k + |d|] == '/' {
      forall q | at <= q < at + |d| ensures t[q] != '/' {
        assert t[q] == s[k..k + |d|][q - at];
      }
      assert t[at + |d|] == '/';
      assert top == at + |d|;
    }
  }

  lemma ReadFromName(t: string, base: nat, s: string, end: nat, i: nat, a: Addr)
    requires Shows(t, base, s, end) && '\0' !in s && i + 1 < |s|
    ensures var r := ReadConnect(t, base + i);
            r.Found? && r.top < end && (Returns(r, a) <==> |Dotted(a)| <= 14 && SpelledAt(s, i, a))
  {
    hide Shows, ReadAddr, Dotted, InIp4, Ip4Top;
    assert base + |s| + 27 <= end <= |t| by {
      ShowsRoom(t, base, s, end);
    }
    Ip4Same(t, base, s, end, i + 2);
    if InIp4(s, i + 2) {
      assert i + 9 <= |s| + 7;
      CopiedFromName(t, base, s, end, i + 9, a);
    }
  }

  lemma ShowsRoom(t: string, base: nat, s: string, end: nat)
    requires Shows(t, base, s, end)
    ensures base + |s| + 27 <= end <= |t|
  {
  }

  lemma TitleIsDull()
    ensures |TitleLine()| == 27 && forall i | 0 <= i < |TitleLine()| :: Dull(TitleLine()[i])
  {
  }

  /** The name line: "s=", the shown name, and the line end or the zeros of the cut. */
  lemma NameLineShows(x: Session)
    requires x.Valid()
    ensures var line, s := Cut(NameLine(x)), ShownName(x);
            && 2 + |s| <= |line| && line[0] == 's' && line[1] == '='
            && (forall i | 2 <= i < 2 + |s| :: line[i] == s[i - 2])
            && (forall i | 2 + |s| <= i < |line| :: Dull(line[i]))
            && '\0' !in s && |s| <= 61
  {
  }

  lemma MiddleShows(t: string, end: nat, b: string, c: string, d: string, s: string)
    requires 5 <= end <= |t| && t[5..end] == b + c + d
    requires 2 + |s| <= |c| && c[0] == 's' && (forall i | 2 <= i < 2 + |s| :: c[i] == s[i - 2])
    requires |d| == 27 && (forall i | 2 + |s| <= i < |c| :: Dull(c[i])) && (forall i | 0 <= i < |d| :: Dull(d[i]))
    ensures Shows(t, 5 + |b| + 2, s, end)
  {
    var m := b + c + d;
    forall q | 5 <= q < end ensures t[q] == m[q - 5] {
      assert t[q] == t[5..end][q - 5];
    }
    forall q | 5 + |b| + 2 + |s| <= q < end ensures Dull(t[q]) {
      var i := q - 5 - |b|;
      assert t[q] == if i < |c| then c[i] else d[i - |c|];
    }
    forall q | 5 + |b| + 2 <= q < 5 + |b| + 2 + |s| ensures t[q] == s[q - (5 + |b| + 2)] {
      assert t[q] == c[q - 5 - |b|];
    }
  }

  lemma NoneInOwner(t: string, end: nat, b: string, c: string, d: string)
    requires 5 <= end < |t| && t[5..end] == b + c + d && |c| >= 2 && c[0] == 's' && c[1] == '='
    requires NoConnect(b) && b != "" && b[|b| - 1] == '\n'
    ensures forall q | 5 <= q < 5 + |b| + 2 :: !ConnectAt(t, q)
  {
    var m := b + c + d;
    forall q | 5 <= q < 5 + |b| + 2 ensures !ConnectAt(t, q) {
      assert t[q] == t[5..end][q - 5] == m[q - 5];
      if q < 5 + |b| - 1 {
        assert t[q + 1] == t[5..end][q - 5 + 1] == m[q - 5 + 1];
      }
    }
  }

  /** Where the shown name starts. */
  function NameStart(x: Session): nat {
    5 + |OwnerLine(x)| + 2
  }

  /** The buffer between owner and connection line, as the parser sees it. */
  lemma NameInBuffer(x: Session, t: string, n: nat)
    requires x.Valid() && Filled(t, n, Lines(x))
    ensures Shows(t, NameStart(x), ShownName(x), ConnectStart(x))
    ensures ConnectStart(x) + 100 < n <= |t| && forall q | 5 <= q < NameStart(x) :: !ConnectAt(t, q)
  {
    hide OwnerLine, NameLine, TitleLine, ConnectLine, VerLine, TailLines, Lines, Join, Cut, Written, ShownName, Filled;
    hide NoConnect, ConnectAt, Shows, Dull;
    Pieces(x, t, n);
    OwnerNoConnect(x);
    TitleIsDull();
    NameLineShows(x);
    LineLengths(x);
    ConnectIsLong(x);
    FixedLengths();
    MiddleShows(t, ConnectStart(x), OwnerLine(x), Cut(NameLine(x)), TitleLine(), ShownName(x));
    NoneInOwner(t, ConnectStart(x), OwnerLine(x), Cut(NameLine(x)), TitleLine());
  }

  lemma ConnectIsLong(x: Session)
    ensures |ConnectLine(x)| > 0
  {
  }

  /** A shown name with "c=" is where the parser stops first. */
  lemma SearchDiverted(x: Session, t: string, n: nat, i: nat)
    requires x.Valid() && Filled(t, n, Lines(x)) && FirstAt(ShownName(x), i)
    ensures |t| == MAX_SDP_MSG_SIZE && SearchResult(t, SAP_HDR_SIZE + n) == ReadConnect(t, NameStart(x) + i)
  {
    hide SearchResult, ReadConnect, Lines, Filled, ShownName, NameStart, ConnectStart, NoConnect, Dull;
    SearchBuilt(x, t, n);
    NameInBuffer(x, t, n);
    var base, s := NameStart(x), ShownName(x);
    NameStartsLate(x);
    forall q | 5 <= q <= base + i ensures ConnectAt(t, q) <==> q == base + i {
      if base <= q {
        assert t[q] == s[q - base] && t[q + 1] == s[q - base + 1];
        assert ConnectAt(s, q - base) <==> q == base + i;
      }
    }
    FoundAt(t, SAP_HDR_SIZE + n, base + i);
  }

  lemma NameStartsLate(x: Session)
    ensures 5 <= NameStart(x)
  {
  }

  lemma OnlyFirst(s: string, i: nat, a: Addr)
    requires FirstAt(s, i)
    ensures !NoConnect(s) && (Spells(s, a) <==> SpelledAt(s, i, a))
  {
    hide SpelledAt;
    if j: nat :| FirstAt(s, j) && SpelledAt(s, j, a) {
      assert i == j;
    }
  }

  /** Searching a built message, whatever its name: the parser stays inside the text, and it returns 1
      and an address exactly if that is the one the session obtains. */
  lemma {:induction false} ReturnsIff(x: Session, t: string, n: nat, a: Addr)
    requires x.Valid() && Filled(t, n, Lines(x))
    ensures |t| == MAX_SDP_MSG_SIZE
    ensures var r := SearchResult(t, SAP_HDR_SIZE + n);
            r.Found? && r.top < n && (Returns(r, a) <==> Obtained(x, a))
  {
    hide SearchResult, ReadConnect, Lines, Filled, ShownName, NameStart, ConnectStart, ConnectAt, Shows, FirstAt;
    hide SpelledAt, Spells, Dotted;
    SearchBuilt(x, t, n);
    NameInBuffer(x, t, n);
    var s := ShownName(x);
    if NoConnect(s) {
      DottedChars(x.mcast);
    } else {
      var i := FirstOf(s, ConnectIn(s));
      SearchDiverted(x, t, n, i);
      OnlyFirst(s, i, a);
      NameIsClean(x);
      FirstIsInside(s, i);
      ReadFromName(t, NameStart(x), s, ConnectStart(x), i, a);
    }
  }

  ghost function ConnectIn(s: string): (i: nat)
    requires !NoConnect(s)
    ensures i + 1 < |s| && ConnectAt(s, i)
  {
    var i: nat :| i + 1 < |s| && s[i] == 'c' && s[i + 1] == '=';
    i
  }

  lemma FirstIsInside(s: string, i: nat)
    requires FirstAt(s, i)
    ensures i + 1 < |s|
  {
  }

  lemma NameIsClean(x: Session)
    requires x.Valid()
    ensures '\0' !in ShownName(x)
  {
  }

  /** So a name that spells a connection takes the parser in, wherever in its shown part it does so
      first, for every address of up to 14 characters and whatever the session's own. */
  lemma NameDiverts(x: Session, a: Addr, before: string, after: string, t: string, n: nat)
    requires x.Valid() && Filled(t, n, Lines(x)) && NoConnect(before)
    requires x.name == before + ("c=IN IP4 " + Dotted(a) + "/") + after
    requires |Dotted(a)| <= 14 && |before| + 10 + |Dotted(a)| <= 61
    ensures |t| == MAX_SDP_MSG_SIZE && Returns(SearchResult(t, SAP_HDR_SIZE + n), a)
  {
    hide SearchResult, Lines, Filled, Dotted, NoConnect, SpelledAt, Spells, FirstAt;
    ReturnsIff(x, t, n, a);
    var s := ShownName(x);
    var shown := s[|before| + 10 + |Dotted(a)|..];
    assert s == before + ("c=IN IP4 " + Dotted(a) + "/") + shown;
    SpelledIn(s, before, Dotted(a), shown, a);
    OnlyFirst(s, |before|, a);
  }

  lemma SpelledIn(s: string, before: string, d: string, after: string, a: Addr)
    requires s == before + ("c=IN IP4 " + d + "/") + after && d == Dotted(a) && NoConnect(before)
    ensures FirstAt(s, |before|) && SpelledAt(s, |before|, a)
  {
    hide Dotted;
    var i, mid := |before|, "c=IN IP4 " + d + "/";
    assert forall q | i <= q < i + |mid| :: s[q] == mid[q - i];
    assert s[i] == mid[0] && s[i + 1] == mid[1] && s[i + 2] == mid[2] && s[i + 3] == mid[3];
    assert s[i + 5] == mid[5] && s[i + 6] == mid[6] && s[i + 7] == mid[7] && s[i + 9 + |d|] == mid[9 + |d|];
    assert s[i + 9..i + 9 + |d|] == d;
    forall j | 0 <= j < i ensures !ConnectAt(s, j) {
      assert s[j] == before[j];
    }
  }

  /** The buffer as the builder leaves it. */
  function Built(x: Session): string
    requires |x.serverId| == 8
  {
    var text := Written(Lines(x));
    text + Nuls(if |text| <= MAX_SDP_MSG_SIZE then MAX_SDP_MSG_SIZE - |text| else 0)
  }

  lemma BuiltIsFilled(x: Session)
    requires x.Valid() && Fits(x)
    ensures Filled(Built(x), |Written(Lines(x))|, Lines(x))
  {
    hide Written, Lines, Join;
    JoinedLength(x);
    var text := Written(Lines(x));
    assert Built(x)[..|text|] == text && Built(x)[|text|..] == Nuls(MAX_SDP_MSG_SIZE - |text|);
  }

  /** The whole round trip, for every session that fits. The parser locks on to the connection line
      exactly if the shown name contains no "c="; then it returns 1 and the address that went in if
      its dotted form has at most 14 characters, and -1 if it has 15. In any case it stays inside the
      text, and gives back an address exactly if the session obtains it: so the one that went in
      comes back exactly if it is short enough and the name has no "c=" or spells the same one. */
  lemma {:induction false} RoundTrip(x: Session)
    requires x.Valid() && Fits(x)
    ensures var t, len := Built(x), SAP_HDR_SIZE + |Written(Lines(x))|;
            && |t| == MAX_SDP_MSG_SIZE && IsSdp(t)
            && (SweepFrom(t, 4, len - 1 - MIN_SAP_C_MSG_SIZE) == Hit(ConnectStart(x)) <==> NoConnect(ShownName(x)))
            && (NoConnect(ShownName(x)) ==> SearchResult(t, len) == Expected(x.mcast, ConnectStart(x)))
            && SearchResult(t, len).Found? && SearchResult(t, len).top < len - SAP_HDR_SIZE
            && forall a :: Returns(SearchResult(t, len), a) <==> Obtained(x, a)
  {
    hide Built, Filled, Written, Lines, SearchResult, SweepFrom, NoConnect, ShownName, ConnectStart, Fits, Obtained;
    hide Returns;
    BuiltIsFilled(x);
    var t, n := Built(x), |Written(Lines(x))|;
    SearchBuilt(x, t, n);
    ReturnsIff(x, t, n, x.mcast);
    forall a ensures Returns(SearchResult(t, SAP_HDR_SIZE + n), a) <==> Obtained(x, a) {
      ReturnsIff(x, t, n, a);
    }
  }

  /** The two calls in a row, on any session; `text` and `len` are what the first leaves to the second. */
  method BuildThenSearch(x: Session, sapFlags: u8) returns (inside: bool, text: string, len: nat, r: Outcome)
    requires x.Valid()
    ensures inside <==> Fits(x)
    ensures |text| == MAX_SDP_MSG_SIZE && r == SearchResult(text, len)
    ensures inside ==> len >= SAP_HDR_SIZE && Filled(text, len - SAP_HDR_SIZE, Lines(x))
    ensures inside ==> r.Found? && (r.ret == 1 <==> r.addr.Some?) && forall a :: Returns(r, a) <==> Obtained(x, a)
    ensures inside && NoConnect(ShownName(x)) && |Dotted(x.mcast)| == 15 ==> r.Found? && r.ret == -1
  {
    hide Dotted, Lines, Written, NoConnect, SearchResult, Fits, Obtained, Returns, Spelled, Somewhere, Filled;
    hide SapReadBack.Describes;
    var m := new Message();
    var ret;
    ret, inside := m.Build(x, sapFlags);
    text, len := m.sdp[..], m.len;
    r := m.Search();
    if inside {
      var n := len - SAP_HDR_SIZE;
      SearchBuilt(x, text, n);
      ReturnsIff(x, text, n, x.mcast);
      ResultIff(text, len, x.mcast);
      forall a ensures Returns(r, a) <==> Obtained(x, a) {
        ReturnsIff(x, text, n, a);
      }
    }
  }
}
