/**
 Spool file names (internal/agent/spool.go): "%020d.json", and the strict parser of listLocked.
 */
module SpoolNames {
  import opened Prelude

  /** 2^64 - 1, the largest sequence number. */
  const MAX_UINT64: nat := 0xFFFF_FFFF_FFFF_FFFF

  const WIDTH: nat := 20
  const SUFFIX := ".json"

  function Digit(d: nat): char
    requires d < 10
  {
    '0' + d as char
  }

  predicate IsDigit(c: char) {
    '0' <= c <= '9'
  }

  predicate AllDigits(s: string) {
    forall c | c in s :: IsDigit(c)
  }

  /** strconv.FormatUint(n, 10). */
  function Format(n: nat): string {
    if n < 10 then [Digit(n)] else Format(n / 10) + [Digit(n % 10)]
  }

  function Zeros(n: nat): string {
    seq(n, _ => '0')
  }

  /** fmt.Sprintf("%020d", n). */
  function Padded(n: nat): string {
    Zeros(if |Format(n)| < WIDTH then WIDTH - |Format(n)| else 0) + Format(n)
  }

  function ReportFilename(n: nat): string {
    Padded(n) + SUFFIX
  }

  /** The number a digit string stands for. */
  function Value(s: string): nat
    requires AllDigits(s)
  {
    if s == "" then 0
    else
      assert IsDigit(Last(s));
      10 * Value(Init(s)) + (Last(s) as int - '0' as int)
  }

  /** strconv.ParseUint(s, 10, 64). */
  function ParseUint(s: string): Option<nat> {
    if s != "" && AllDigits(s) && Value(s) <= MAX_UINT64 then Some(Value(s)) else None
  }

  predicate EndsWith(s: string, suffix: string) {
    |suffix| <= |s| && s[|s| - |suffix|..] == suffix
  }

  /** The sequence number listLocked accepts a directory entry for; None makes it refuse the directory. */
  function ParseName(name: string): Option<nat> {
    if !EndsWith(name, SUFFIX) then None
    else
      var number := ParseUint(name[..|name| - |SUFFIX|]);
      if number.None? || number.value == 0 || name != ReportFilename(number.value) then None
      else number
  }

  /** Byte-wise order of names, as a directory listing has it. */
  ghost predicate NameBefore(a: string, b: string) {
    (|a| < |b| && a == b[..|a|]) || exists k :: 0 <= k < |a| && DiffersAt(a, b, k)
  }

  // ----- values of digit strings -----

  lemma {:induction false} FormatValue(n: nat)
    ensures AllDigits(Format(n)) && Value(Format(n)) == n
  {
    if n >= 10 {
      FormatValue(n / 10);
      assert Init(Format(n)) == Format(n / 10);
    }
  }

  lemma {:induction false} ZerosAddNothing(k: nat, s: string)
    requires AllDigits(s)
    ensures AllDigits(Zeros(k) + s) && Value(Zeros(k) + s) == Value(s)
    decreases |s|, k
  {
    if s != "" {
      ZerosAddNothing(k, Init(s));
      assert Init(Zeros(k) + s) == Zeros(k) + Init(s);
    } else if k > 0 {
      ZerosAddNothing(k - 1, "");
      assert Init(Zeros(k) + "") == Zeros(k - 1) + "";
    }
  }

  function Power10(k: nat): nat {
    if k == 0 then 1 else 10 * Power10(k - 1)
  }

  lemma {:induction false} FormatLength(n: nat, width: nat)
    requires width > 0 && n < Power10(width)
    ensures |Format(n)| <= width
  {
    if n >= 10 {
      assert width > 1;
      FormatLength(n / 10, width - 1);
    }
  }

  /** Twenty digits hold every uint64, so all names have one length. */
  lemma PaddedFits(n: nat)
    requires n <= MAX_UINT64
    ensures |Padded(n)| == WIDTH && AllDigits(Padded(n)) && Value(Padded(n)) == n
  {
    assert MAX_UINT64 < Power10(WIDTH) by {
      assert Power10(10) == 10_000_000_000;
      assert Power10(20) == 10_000_000_000 * Power10(10);
    }
    FormatLength(n, WIDTH);
    FormatValue(n);
    ZerosAddNothing(WIDTH - |Format(n)|, Format(n));
  }

  predicate DiffersAt(a: string, b: string, k: nat) {
    k < |a| && k < |b| && a[..k] == b[..k] && a[k] < b[k]
  }

  lemma {:induction false} ValueOrder(a: string, b: string)
    requires AllDigits(a) && AllDigits(b) && |a| == |b|
    ensures Value(a) < Value(b) <==> exists k :: 0 <= k < |a| && DiffersAt(a, b, k)
    ensures Value(a) == Value(b) <==> a == b
  {
    if a != "" {
      var n := |a| - 1;
      ValueOrder(Init(a), Init(b));
      assert a == Init(a) + [Last(a)] && b == Init(b) + [Last(b)];
      assert IsDigit(Last(a)) && IsDigit(Last(b));
      forall k | 0 <= k < n ensures DiffersAt(a, b, k) <==> DiffersAt(Init(a), Init(b), k) {
        assert a[..k] == Init(a)[..k] && b[..k] == Init(b)[..k];
      }
      assert DiffersAt(a, b, n) <==> Init(a) == Init(b) && Last(a) < Last(b);
    }
  }

  // ----- the properties -----

  /** Round trip: every sequence number's file name is parsed back to it. */
  lemma NameRoundTrip(n: nat)
    requires 0 < n <= MAX_UINT64
    ensures ParseName(ReportFilename(n)) == Some(n)
  {
    PaddedFits(n);
    var name := ReportFilename(n);
    assert name[..|name| - |SUFFIX|] == Padded(n) && name[|name| - |SUFFIX|..] == SUFFIX;
  }

  /** No other name is accepted, so names and numbers correspond one to one. */
  lemma OnlyReportNames(name: string)
    ensures ParseName(name).Some? <==> exists n: nat :: 0 < n <= MAX_UINT64 && name == ReportFilename(n)
    ensures ParseName(name).Some? ==> name == ReportFilename(ParseName(name).value)
  {
    if n: nat :| 0 < n <= MAX_UINT64 && name == ReportFilename(n) {
      NameRoundTrip(n);
    }
  }

  /** The order of names is the order of numbers. */
  lemma NameOrderIsNumberOrder(a: nat, b: nat)
    requires a <= MAX_UINT64 && b <= MAX_UINT64
    ensures NameBefore(ReportFilename(a), ReportFilename(b)) <==> a < b
  {
    PaddedFits(a);
    PaddedFits(b);
    ValueOrder(Padded(a), Padded(b));
    var p, q := ReportFilename(a), ReportFilename(b);
    assert p[..WIDTH] == Padded(a) && q[..WIDTH] == Padded(b);
    assert p[WIDTH..] == SUFFIX && q[WIDTH..] == SUFFIX;
    forall k | 0 <= k < WIDTH ensures DiffersAt(p, q, k) <==> DiffersAt(Padded(a), Padded(b), k) {
      assert Padded(a)[..k] == p[..k] && Padded(b)[..k] == q[..k];
    }
    forall k | WIDTH <= k < |p| ensures p[k] == q[k] {
      assert p[k] == SUFFIX[k - WIDTH] && q[k] == SUFFIX[k - WIDTH];
    }
  }
}
