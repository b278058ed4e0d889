/** IPv4 addresses in dotted form, printed and read back as the C library does. */
module Inet {
  import opened MachineInt

  datatype Option<T> = None | Some(value: T)

  datatype Addr = Addr(a: u8, b: u8, c: u8, d: u8)

  function DigitChar(d: nat): char
    requires d < 10
  {
    "0123456789"[d]
  }

  predicate IsDigit(c: char) {
    '0' <= c <= '9'
  }

  function DigitValue(c: char): nat
    requires IsDigit(c)
  {
    c as int - '0' as int
  }

  lemma DigitRoundTrip(d: nat)
    requires d < 10
    ensures IsDigit(DigitChar(d)) && DigitValue(DigitChar(d)) == d
  {
    assert d == 0 || d == 1 || d == 2 || d == 3 || d == 4 || d == 5 || d == 6 || d == 7 || d == 8 || d == 9;
  }

  /** An unsigned number in decimal. */
  function Digits(n: nat): (s: string)
    ensures |s| >= 1
    ensures forall i | 0 <= i < |s| :: IsDigit(s[i])
  {
    DigitRoundTrip(n % 10);
    if n < 10 then [DigitChar(n)] else Digits(n / 10) + [DigitChar(n % 10)]
  }

  function Pow10(k: nat): nat {
    if k == 0 then 1 else 10 * Pow10(k - 1)
  }

  lemma {:induction false} DigitsLength(n: nat, k: nat)
    requires k >= 1 && n < Pow10(k)
    ensures |Digits(n)| <= k
  {
    if n >= 10 {
      DigitsLength(n / 10, k - 1);
    }
  }

  lemma {:induction false} DigitsAtLeast(n: nat, k: nat)
    requires Pow10(k) <= n
    ensures k < |Digits(n)|
  {
    if k > 0 {
      DigitsAtLeast(n / 10, k - 1);
    }
  }

  /** `inet_ntoa`. */
  function Dotted(x: Addr): string {
    Digits(x.a) + "." + Digits(x.b) + "." + Digits(x.c) + "." + Digits(x.d)
  }

  lemma DottedChars(x: Addr)
    ensures 7 <= |Dotted(x)| <= 15
    ensures forall i | 0 <= i < |Dotted(x)| :: IsDigit(Dotted(x)[i]) || Dotted(x)[i] == '.'
  {
    assert Pow10(3) == 1000;
    DigitsLength(x.a, 3);
    DigitsLength(x.b, 3);
    DigitsLength(x.c, 3);
    DigitsLength(x.d, 3);
  }

  // ---------- inet_pton ----------

  /** The octets read, the value of the one in progress, and whether it has a digit yet. */
  datatype Scan = Scan(octets: seq<u8>, cur: u8, saw: bool) | Bad

  function ScanStep(t: Scan, c: char): Scan {
    match t
    case Bad => Bad
    case Scan(octets, cur, saw) =>
      if IsDigit(c) then
        var value := cur * 10 + DigitValue(c);
        if (saw && cur == 0) || value > 255 then Bad else Scan(octets, value, true)
      else if c == '.' && saw && |octets| < 3 then Scan(octets + [cur], 0, false)
      else Bad
  }

  function ScanAll(s: string): Scan {
    if s == "" then Scan([], 0, false) else ScanStep(ScanAll(s[..|s| - 1]), s[|s| - 1])
  }

  /** `inet_pton(AF_INET, ...)`: four decimal octets without leading zeros. */
  function InetPton(s: string): Option<Addr> {
    match ScanAll(s)
    case Scan(octets, cur, saw) =>
      if saw && |octets| == 3 then Some(Addr(octets[0], octets[1], octets[2], cur)) else None
    case Bad => None
  }

  /** The text that leaves the scanner in a given state. */
  function Scanned(octets: seq<u8>): string {
    if octets == [] then "" else Scanned(octets[..|octets| - 1]) + Digits(octets[|octets| - 1]) + "."
  }

  lemma ScanOneMore(s: string, c: char)
    ensures ScanAll(s + [c]) == ScanStep(ScanAll(s), c)
  {
    assert (s + [c])[..|s|] == s;
  }

  lemma {:induction false} ScanNumber(s: string, octets: seq<u8>, n: u8)
    requires ScanAll(s) == Scan(octets, 0, false)
    ensures ScanAll(s + Digits(n)) == Scan(octets, n, true)
    decreases n
  {
    DigitRoundTrip(n % 10);
    hide ScanAll;
    if n < 10 {
      ScanOneMore(s, DigitChar(n));
    } else {
      ScanNumber(s, octets, n / 10);
      ScanOneMore(s + Digits(n / 10), DigitChar(n % 10));
      assert s + Digits(n) == s + Digits(n / 10) + [DigitChar(n % 10)];
    }
  }

  lemma {:induction false} ScanScanned(octets: seq<u8>)
    requires |octets| <= 3
    ensures ScanAll(Scanned(octets)) == Scan(octets, 0, false)
  {
    if octets == [] {
      assert Scanned(octets) == "";
    } else {
      hide ScanAll, Digits;
      var n := |octets| - 1;
      ScanScanned(octets[..n]);
      ScanNumber(Scanned(octets[..n]), octets[..n], octets[n]);
      var s := Scanned(octets[..n]) + Digits(octets[n]);
      ScanOneMore(s, '.');
      assert octets[..n] + [octets[n]] == octets;
    }
  }

  lemma DottedIsScanned(x: Addr)
    ensures Dotted(x) == Scanned([x.a, x.b, x.c]) + Digits(x.d)
  {
    var three := [x.a, x.b, x.c];
    assert three[..2] == [x.a, x.b] && three[..2][..1] == [x.a] && [x.a][..0] == [];
    assert Scanned([x.a]) == Digits(x.a) + ".";
    assert Scanned([x.a, x.b]) == Scanned([x.a]) + Digits(x.b) + ".";
  }

  lemma DigitsAppend(n: nat, c: char)
    requires IsDigit(c)
    ensures Digits(n * 10 + DigitValue(c)) == if n == 0 then [c] else Digits(n) + [c]
  {
    var v := DigitValue(c);
    assert (n * 10 + v) / 10 == n && (n * 10 + v) % 10 == v;
    assert DigitChar(v) == c by {
      assert v == 0 || v == 1 || v == 2 || v == 3 || v == 4 || v == 5 || v == 6 || v == 7 || v == 8 || v == 9;
    }
  }

  ghost predicate ReadFrom(t: Scan, s: string) {
    && t.Scan? && |t.octets| <= 3 && (!t.saw ==> t.cur == 0)
    && s == Scanned(t.octets) + if t.saw then Digits(t.cur) else ""
  }

  lemma ReadFromStep(t: Scan, s: string, c: char)
    requires ReadFrom(t, s) && ScanStep(t, c).Scan?
    ensures ReadFrom(ScanStep(t, c), s + [c])
  {
    hide Digits;
    if IsDigit(c) {
      hide Scanned;
      DigitsAppend(t.cur, c);
    } else {
      assert (t.octets + [t.cur])[..|t.octets|] == t.octets;
    }
  }

  /** What the scanner has accepted it could only have read from that text. */
  lemma {:induction false} ScanInverse(s: string)
    requires ScanAll(s).Scan?
    ensures ReadFrom(ScanAll(s), s)
  {
    if s != "" {
      hide ReadFrom;
      ScanInverse(s[..|s| - 1]);
      ReadFromStep(ScanAll(s[..|s| - 1]), s[..|s| - 1], s[|s| - 1]);
      assert s == s[..|s| - 1] + [s[|s| - 1]];
    }
  }

  /** Reading accepts exactly the printed forms and gives back the address that was printed. */
  lemma InetPtonIff(s: string, x: Addr)
    ensures InetPton(s) == Some(x) <==> s == Dotted(x)
  {
    DottedIsScanned(x);
    if s == Dotted(x) {
      ScanScanned([x.a, x.b, x.c]);
      ScanNumber(Scanned([x.a, x.b, x.c]), [x.a, x.b, x.c], x.d);
    }
    if InetPton(s) == Some(x) {
      ScanInverse(s);
      assert ScanAll(s).octets == [x.a, x.b, x.c];
    }
  }
}
