/** The one-line text report that a process prints and its parent parses:
    `Send Count: %d, Recv Count: %d, Read Count: %d, Write Count: %d` and a newline,
    printed with `Printf` and read back with `Sscanf` into four `uint32` fields. */
module ReportLine {
  import opened Uint32
  import opened RunReport

  predicate IsDigit(c: char) {
    '0' <= c <= '9'
  }

  predicate AllDigits(s: string) {
    forall i :: 0 <= i < |s| ==> IsDigit(s[i])
  }

  function DigitChar(d: nat): (c: char)
    requires d < 10
    ensures IsDigit(c)
  {
    ('0' as int + d) as char
  }

  function DigitValue(c: char): nat
    requires IsDigit(c)
  {
    c as int - '0' as int
  }

  /** `%d` on a non-negative value: its decimal digits, most significant first,
      with no leading zero except for zero itself. */
  function Decimal(n: nat): (s: string)
    ensures |s| > 0 && AllDigits(s)
    ensures s[0] == '0' <==> n == 0
  {
    if n < 10 then [DigitChar(n)] else Decimal(n / 10) + [DigitChar(n % 10)]
  }

  /** The number a string of decimal digits denotes (leading zeros allowed). */
  function ValueOf(s: string): nat
    requires AllDigits(s)
  {
    if s == [] then 0 else 10 * ValueOf(s[..|s| - 1]) + DigitValue(s[|s| - 1])
  }

  /** How many characters `%d` takes from the front of the input: the longest run of digits
      (`DigitRunIsLongest`). */
  function DigitRun(s: string): nat {
    if s == [] || !IsDigit(s[0]) then 0 else 1 + DigitRun(s[1..])
  }

  lemma {:induction false} DigitRunIsLongest(s: string)
    ensures DigitRun(s) <= |s| && AllDigits(s[..DigitRun(s)])
    ensures DigitRun(s) < |s| ==> !IsDigit(s[DigitRun(s)])
  {
    if s != [] && IsDigit(s[0]) {
      DigitRunIsLongest(s[1..]);
      assert forall i :: 1 <= i < DigitRun(s) ==> s[..DigitRun(s)][i] == s[1..][..DigitRun(s[1..])][i - 1];
    }
  }

  /** The literal text in front of the k-th conversion of the format. */
  function Label(k: nat): string
    requires k < 4
  {
    ["Send Count: ", ", Recv Count: ", ", Read Count: ", ", Write Count: "][k]
  }

  function Fields(r: Report): seq<U32> {
    [r.send, r.recv, r.read, r.write]
  }

  /** `p` holds the values of `vals` in its first fields and zero in the others. */
  predicate MatchedThenZero(p: Report, vals: seq<U32>)
    requires |vals| <= 4
  {
    Fields(p)[..|vals|] == vals && forall i :: |vals| <= i < 4 ==> Fields(p)[i] == 0
  }

  function FieldOrZero(vals: seq<U32>, i: nat): U32 {
    if i < |vals| then vals[i] else 0
  }

  /** The report `Sscanf` leaves behind after storing `vals`: the fields it did not reach
      keep the zero value of `var c CountConn`. */
  function FromFields(vals: seq<U32>): (p: Report)
    ensures |vals| <= 4 ==> MatchedThenZero(p, vals)
  {
    Report(FieldOrZero(vals, 0), FieldOrZero(vals, 1), FieldOrZero(vals, 2), FieldOrZero(vals, 3))
  }

  /** `Printf(OutputFormat, r.send, r.recv, r.read, r.write)`. */
  function Format(r: Report): string {
    "Send Count: " + (Decimal(r.send) + (", Recv Count: " + (Decimal(r.recv)
    + (", Read Count: " + (Decimal(r.read) + (", Write Count: " + (Decimal(r.write) + "\n")))))))
  }

  /** The format's conversions k, k+1, ... filled with `vals`, each number after its label,
      followed by the text `t`. */
  function Render(vals: seq<U32>, k: nat, t: string): string
    requires k + |vals| <= 4
    decreases |vals|
  {
    if vals == [] then t else Label(k) + (Decimal(vals[0]) + Render(vals[1..], k + 1, t))
  }

  /** The outcome of one conversion: the scan stops, or it stores a value and goes on. */
  datatype Step = Stop | Stored(value: U32, rest: string)

  /** The k-th conversion of the format: its literal text must match character for character,
      then `%d` takes the longest run of digits, which must be non-empty and denote a value
      that fits in a `uint32`. */
  function Convert(s: string, k: nat): Step
    requires k < 4
  {
    var lit := Label(k);
    if |s| < |lit| || s[..|lit|] != lit then Stop
    else
      var rest := s[|lit|..];
      var n := DigitRun(rest);
      DigitRunIsLongest(rest);
      if n == 0 || ValueOf(rest[..n]) >= Modulus then Stop
      else Stored(ValueOf(rest[..n]) as U32, rest[n..])
  }

  /** `Sscanf(s, OutputFormat, ...)` from the k-th conversion on: the values it stores before
      it stops at the first conversion that fails. */
  function ScanFrom(s: string, k: nat): seq<U32>
    requires k <= 4
    decreases 4 - k
  {
    if k == 4 then []
    else
      match Convert(s, k)
      case Stop => []
      case Stored(v, rest) => [v] + ScanFrom(rest, k + 1)
  }

  /** `var c CountConn; fmt.Sscanf(output, OutputFormat, &c.SendCount, ...)`. */
  function Parse(s: string): Report {
    FromFields(ScanFrom(s, 0))
  }

  /** A conversion stores a value only when the input is its label, then a non-empty run of
      digits denoting that value and followed by the end of input or a non-digit, then the
      rest the scan goes on with. */
  lemma ConvertStored(s: string, k: nat)
    requires k < 4 && Convert(s, k).Stored?
    ensures var st, lit := Convert(s, k), Label(k);
      var m := |s| - |st.rest|;
      |lit| < m <= |s| && s[..|lit|] == lit && s[m..] == st.rest
      && AllDigits(s[|lit|..m]) && ValueOf(s[|lit|..m]) == st.value
      && (st.rest == [] || !IsDigit(st.rest[0]))
  {
    var lit := Label(k);
    var rest := s[|lit|..];
    var n := DigitRun(rest);
    DigitRunIsLongest(rest);
    assert s[|lit|..|lit| + n] == rest[..n];
  }

  /** At most one value per remaining conversion is stored. */
  lemma {:induction false} ScanFromLength(s: string, k: nat)
    requires k <= 4
    ensures |ScanFrom(s, k)| <= 4 - k
    decreases 4 - k
  {
    if k < 4 {
      match Convert(s, k)
      case Stop =>
      case Stored(v, rest) => ScanFromLength(rest, k + 1);
    }
  }

  /** Whatever the child printed, the parsed report holds the values the scan stored, in
      order, and zero in every field the scan did not reach. */
  lemma PartialParse(s: string)
    ensures MatchedThenZero(Parse(s), ScanFrom(s, 0))
  {
    ScanFromLength(s, 0);
  }

  lemma {:induction false} ValueOfDecimal(n: nat)
    ensures ValueOf(Decimal(n)) == n
  {
    if n >= 10 {
      var s := Decimal(n);
      assert s[..|s| - 1] == Decimal(n / 10);
      ValueOfDecimal(n / 10);
    }
  }

  /** `%d` reads back exactly the digits `%d` printed when a non-digit or the end follows. */
  lemma DigitRunOfDecimal(n: nat, t: string)
    requires t == [] || !IsDigit(t[0])
    ensures DigitRun(Decimal(n) + t) == |Decimal(n)|
  {
    var d := Decimal(n);
    var s := d + t;
    DigitRunIsLongest(s);
    assert forall i :: 0 <= i < |d| ==> s[i] == d[i];
    if t != [] {
      assert s[|d|] == t[0];
    }
  }

  /** Every label begins with a character that cannot continue a number. */
  lemma LabelStartsWithNonDigit(k: nat)
    requires k < 4
    ensures |Label(k)| > 0 && !IsDigit(Label(k)[0])
  {
  }

  lemma FormatIsRender(r: Report)
    ensures Format(r) == Render(Fields(r), 0, "\n")
  {
    var f := Fields(r);
    var last := Render(f[3..], 3, "\n");
    assert last == Label(3) + (Decimal(r.write) + "\n") by {
      assert f[3..][0] == r.write;
      assert f[3..][1..] == [];
      assert Render([], 4, "\n") == "\n";
    }
    var fromRead := Render(f[2..], 2, "\n");
    assert fromRead == Label(2) + (Decimal(r.read) + last) by {
      assert f[2..][1..] == f[3..];
    }
    var fromRecv := Render(f[1..], 1, "\n");
    assert fromRecv == Label(1) + (Decimal(r.recv) + fromRead) by {
      assert f[1..][1..] == f[2..];
    }
    assert Render(f, 0, "\n") == Label(0) + (Decimal(r.send) + fromRecv);
  }

  /** One conversion: after its label, a printed number is stored if it fits in a `uint32`,
      and scanning goes on after it; a number that does not fit ends the scan. */
  lemma ConvertPrinted(k: nat, v: nat, tail: string, s: string)
    requires k < 4
    requires tail == [] || !IsDigit(tail[0])
    requires s == Label(k) + (Decimal(v) + tail)
    ensures Convert(s, k) == if v < Modulus then Stored(v as U32, tail) else Stop
  {
    var lit := Label(k);
    var d := Decimal(v);
    assert s[..|lit|] == lit;
    var rest := s[|lit|..];
    assert rest == d + tail;
    DigitRunOfDecimal(v, tail);
    ValueOfDecimal(v);
    assert rest[..|d|] == d;
    assert rest[|d|..] == tail;
  }

  /** What follows a rendered number cannot extend it. */
  lemma RenderStartsWithNonDigit(vals: seq<U32>, k: nat, t: string)
    requires k + |vals| <= 4
    requires t == [] || !IsDigit(t[0])
    ensures var s := Render(vals, k, t); s == [] || !IsDigit(s[0])
  {
    if vals != [] {
      LabelStartsWithNonDigit(k);
    }
  }

  /** Unfolds `ScanFrom` once; kept apart so that callers' proof obligations stay small. */
  lemma ScanStopped(s: string, k: nat)
    requires k < 4 && Convert(s, k) == Stop
    ensures ScanFrom(s, k) == []
  {
  }

  /** Unfolds `ScanFrom` once; kept apart so that callers' proof obligations stay small. */
  lemma ScanStored(s: string, k: nat, v: U32, rest: string)
    requires k < 4 && Convert(s, k) == Stored(v, rest)
    ensures ScanFrom(s, k) == [v] + ScanFrom(rest, k + 1)
  {
  }

  /** Sequence facts stated as lemmas so that they are used only where called, which keeps
      the proof obligations of the scanning lemmas small. */
  lemma NothingBefore<T>(xs: seq<T>, ys: seq<T>)
    requires xs == []
    ensures xs + ys == ys
  {
  }

  lemma NothingAfter<T>(xs: seq<T>, ys: seq<T>)
    requires ys == []
    ensures xs + ys == xs
  {
  }

  lemma HeadThenRest(xs: seq<U32>, ys: seq<U32>)
    requires xs != []
    ensures [xs[0]] + (xs[1..] + ys) == xs + ys
  {
    assert xs == [xs[0]] + xs[1..];
  }

  /** The base case of `ScanRender`, kept apart for the same reason. */
  lemma ScanRenderNothing(vals: seq<U32>, k: nat, t: string)
    requires vals == [] && k <= 4
    ensures ScanFrom(Render(vals, k, t), k) == vals + ScanFrom(t, k + |vals|)
  {
    NothingBefore(vals, ScanFrom(t, k));
  }

  /** One step of `ScanRender`: if scanning the rendering of `vals[1..]` works, so does
      scanning the rendering of `vals`. */
  lemma ScanRenderMore(vals: seq<U32>, k: nat, t: string)
    requires vals != [] && k + |vals| <= 4
    requires t == [] || !IsDigit(t[0])
    requires ScanFrom(Render(vals[1..], k + 1, t), k + 1)
             == vals[1..] + ScanFrom(t, k + 1 + |vals[1..]|)
    ensures ScanFrom(Render(vals, k, t), k) == vals + ScanFrom(t, k + |vals|)
  {
    assert k + 1 + |vals[1..]| == k + |vals|;
    var s := Render(vals, k, t);
    var tail := Render(vals[1..], k + 1, t);
    RenderStartsWithNonDigit(vals[1..], k + 1, t);
    ConvertPrinted(k, vals[0], tail, s);
    ScanStored(s, k, vals[0], tail);
    HeadThenRest(vals, ScanFrom(t, k + |vals|));
  }

  /** Scanning a rendered run of conversions stores their values, then goes on with the rest. */
  lemma {:induction false} ScanRender(vals: seq<U32>, k: nat, t: string)
    requires k + |vals| <= 4
    requires t == [] || !IsDigit(t[0])
    ensures ScanFrom(Render(vals, k, t), k) == vals + ScanFrom(t, k + |vals|)
    decreases |vals|
  {
    if vals == [] {
      ScanRenderNothing(vals, k, t);
    } else {
      ScanRender(vals[1..], k + 1, t);
      ScanRenderMore(vals, k, t);
    }
  }

  /** Parsing a printed report gives back the same four counters, for every value a
      `uint32` can hold, zero and 2^32 - 1 included. */
  lemma RoundTrip(r: Report)
    ensures Parse(Format(r)) == r
  {
    FormatIsRender(r);
    ScanRender(Fields(r), 0, "\n");
  }

  /** A line cut off after its j-th number parses to those j counters; the fields it never
      reaches stay zero. */
  lemma TruncatedLine(r: Report, j: nat)
    requires j <= 4
    ensures MatchedThenZero(Parse(Render(Fields(r)[..j], 0, "")), Fields(r)[..j])
  {
    ScanRender(Fields(r)[..j], 0, "");
  }

  /** Scanning stops at a number too large for a `uint32`, keeping the values before it. */
  lemma ScanStopsAtOversized(vals: seq<U32>, v: nat, t: string)
    requires |vals| < 4 && v >= Modulus
    requires t == [] || !IsDigit(t[0])
    ensures ScanFrom(Render(vals, 0, Label(|vals|) + (Decimal(v) + t)), 0) == vals
  {
    var u := Label(|vals|) + (Decimal(v) + t);
    ConvertPrinted(|vals|, v, t, u);
    ScanStopped(u, |vals|);
    LabelStartsWithNonDigit(|vals|);
    ScanRender(vals, 0, u);
    NothingAfter(vals, ScanFrom(u, |vals|));
  }

  /** A number too large for a `uint32` ends the parse: it and every later field stay zero,
      the fields before it keep their values. */
  lemma OversizedCountStopsParse(vals: seq<U32>, v: nat, t: string)
    requires |vals| < 4 && v >= Modulus
    requires t == [] || !IsDigit(t[0])
    ensures MatchedThenZero(Parse(Render(vals, 0, Label(|vals|) + (Decimal(v) + t))), vals)
  {
    ScanStopsAtOversized(vals, v, t);
  }
}
