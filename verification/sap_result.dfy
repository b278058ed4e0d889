/** What the parser returns, in terms of the text alone. */
module SapResult {
  import opened MachineInt
  import opened Inet
  import opened SapText
  import opened SapMessage

  /** The text is SDP; p is the first "c=" from 5 on, not beyond the stop mark unless that lies before the
      start; "IN IP4" follows; and m characters later, at most 14, comes the first slash. */
  ghost predicate Reaches(t: string, len: nat, p: nat, m: nat) {
    && 5 <= p && m <= 14 && p + 9 + m < |t|
    && t[..3] == "v=0"
    && (len < 32 || p <= len - 28)
    && t[p] == 'c' && t[p + 1] == '=' && (forall q | 5 <= q < p :: t[q] == 'c' ==> t[q + 1] != '=')
    && t[p + 2] == 'I' && t[p + 3] == 'N' && t[p + 5] == 'I' && t[p + 6] == 'P' && t[p + 7] == '4'
    && t[p + 9 + m] == '/' && (forall q | p + 9 <= q < p + 9 + m :: t[q] != '/')
  }

  /** As a C string, the characters are d. */
  predicate ReadsAs(w: string, d: string) {
    |d| <= |w| && w[..|d|] == d && (|d| < |w| ==> w[|d|] == '\0')
  }

  lemma {:induction false} CStringIs(w: string, k: nat, d: string)
    requires k >= 1 && '\0' !in d
    ensures CString(w + Nuls(k)) == d <==> ReadsAs(w, d)
    decreases w
  {
    if w == "" {
      assert w + Nuls(k) == Nuls(k);
    } else {
      assert (w + Nuls(k))[1..] == w[1..] + Nuls(k);
      if d != "" && w[0] != '\0' {
        CStringIs(w[1..], k, d[1..]);
        assert d == [d[0]] + d[1..];
        assert |d| <= |w| ==> w[..|d|] == [w[0]] + w[1..][..|d| - 1];
      }
    }
  }

  lemma {:induction false} SweepReaches(t: string, len: nat, p: nat, m: nat)
    requires |t| == MAX_SDP_MSG_SIZE && Reaches(t, len, p, m)
    ensures IsSdp(t) && SweepFrom(t, 4, len - 1 - MIN_SAP_C_MSG_SIZE) == Hit(p)
    ensures CopyTop(t, p + 9, 0) == p + 9 + m && InIp4(t, p + 2)
  {
    hide SweepFrom, CopyTop;
    assert t[0] == t[..3][0] && t[1] == t[..3][1] && t[2] == t[..3][2];
    assert ConnectAt(t, p) && forall q | 5 <= q < p :: !ConnectAt(t, q);
  }

  /** A text that gets that far is looked up as an address, and which one comes out is decided by the
      characters before the slash. */
  lemma {:induction false} LooksUp(t: string, len: nat, p: nat, m: nat, a: Addr)
    requires |t| == MAX_SDP_MSG_SIZE && Reaches(t, len, p, m)
    ensures var r := SearchResult(t, len);
            && r.Found? && r.top == p + 9 + m
            && r.ret == (if r.addr.Some? then 1 else 0)
            && (r.addr == Some(a) <==> ReadsAs(t[p + 9..p + 9 + m], Dotted(a)))
  {
    hide SweepFrom, CopyTop, Reaches, InIp4, ReadsAs, CString, InetPton, Dotted;
    ReachesInside(t, len, p, m);
    SweepReaches(t, len, p, m);
    DottedChars(a);
    var w := t[p + 9..p + 9 + m];
    assert '\0' !in Dotted(a);
    CStringIs(w, MAX_IPV4_ASCII_SIZE - m, Dotted(a));
    InetPtonIff(CString(w + Nuls(MAX_IPV4_ASCII_SIZE - m)), a);
  }

  lemma ReachesInside(t: string, len: nat, p: nat, m: nat)
    requires Reaches(t, len, p, m)
    ensures 5 <= p && m <= 14 && p + 9 + m < |t| && t[p + 9 + m] == '/'
  {
  }

  /** And nothing else is. */
  lemma ReachedFrom(t: string, len: nat) returns (p: nat, m: nat)
    requires |t| == MAX_SDP_MSG_SIZE && SearchResult(t, len).Found? && SearchResult(t, len).ret != -1
    ensures Reaches(t, len, p, m)
  {
    hide SweepFrom, CopyTop, CString, InetPton;
    p := SweepFrom(t, 4, len - 1 - MIN_SAP_C_MSG_SIZE).p;
    m := CopyTop(t, p + 9, 0) - (p + 9);
    assert t[..3] == "v=0";
    forall q | 5 <= q < p && t[q] == 'c' ensures t[q + 1] != '=' {
      assert !ConnectAt(t, q);
    }
  }

  ghost predicate Somewhere(t: string, len: nat) {
    exists p: nat, m: nat :: Reaches(t, len, p, m)
  }

  /** Some address is spelled where the text reaches. */
  ghost predicate Spelled(t: string, len: nat, a: Addr) {
    exists p: nat, m: nat :: Reaches(t, len, p, m) && ReadsAs(t[p + 9..p + 9 + m], Dotted(a))
  }

  /** For every text and length on which the parser returns: it returns 1 with an address, exactly if
      the text reaches an address and that is the one; 0 exactly if it reaches something that is no
      address; and -1 exactly if it reaches nothing. */
  lemma {:induction false} ResultIff(t: string, len: nat, a: Addr)
    requires |t| == MAX_SDP_MSG_SIZE && SearchResult(t, len).Found?
    ensures var r := SearchResult(t, len);
            && (r.addr == Some(a) <==> Spelled(t, len, a)) && (r.ret == 1 <==> r.addr.Some?)
            && (r.ret == 0 <==> Somewhere(t, len) && forall b :: !Spelled(t, len, b))
            && (r.ret == -1 <==> !Somewhere(t, len))
            && (r.ret == 1 || r.ret == 0 || r.ret == -1)
  {
    hide SearchResult, Reaches, ReadsAs, Dotted, Spelled, Somewhere;
    if SearchResult(t, len).ret != -1 {
      var p, m := ReachedFrom(t, len);
      ReachesInside(t, len, p, m);
      LooksUp(t, len, p, m, a);
      SpelledThere(t, len, p, m, a);
      forall b ensures SearchResult(t, len).addr == Some(b) <==> Spelled(t, len, b) {
        LooksUp(t, len, p, m, b);
        SpelledThere(t, len, p, m, b);
      }
      if SearchResult(t, len).addr.Some? {
        assert Spelled(t, len, SearchResult(t, len).addr.value);
      }
    } else {
      NoAddress(t, len);
      NowhereThen(t, len);
    }
  }

  lemma SpelledThere(t: string, len: nat, p: nat, m: nat, a: Addr)
    requires |t| == MAX_SDP_MSG_SIZE && Reaches(t, len, p, m) && p + 9 + m < |t|
    ensures Somewhere(t, len) && (Spelled(t, len, a) <==> ReadsAs(t[p + 9..p + 9 + m], Dotted(a)))
  {
    hide ReadsAs, Dotted, SearchResult;
    forall p2: nat, m2: nat | Reaches(t, len, p2, m2) ensures p2 == p && m2 == m {
      SweepReaches(t, len, p, m);
      SweepReaches(t, len, p2, m2);
    }
  }

  lemma NoAddress(t: string, len: nat)
    requires |t| == MAX_SDP_MSG_SIZE && SearchResult(t, len).Found? && SearchResult(t, len).ret == -1
    ensures SearchResult(t, len).addr == None
  {
    hide SweepFrom, CopyTop, CString, InetPton;
  }

  lemma NowhereThen(t: string, len: nat)
    requires |t| == MAX_SDP_MSG_SIZE && SearchResult(t, len).Found? && SearchResult(t, len).ret == -1
    ensures !Somewhere(t, len) && forall a :: !Spelled(t, len, a)
  {
    hide SearchResult, Reaches, ReadsAs, Dotted;
    forall p: nat, m: nat | Reaches(t, len, p, m) ensures false {
      LooksUp(t, len, p, m, Addr(0, 0, 0, 0));
    }
  }
}
