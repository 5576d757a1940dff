/** The stream printer `operator<<(std::ostream&, const Vector<T,N>&)` of
    src/lib/world/array.h with `T = int`.

    The printer writes `[`, the N elements separated by `,` with no trailing
    comma, and `]`. An integer is written the way an output stream writes
    an `int` by default: optional `-`, then decimal digits without leading
    zeros. The parser below is the printer's partner: reading the text back
    yields the vector that was printed, so the format loses nothing. */
module VectorPrint {
  import opened Options

  // ---------------------------------------------------------------------
  // Decimal integers
  // ---------------------------------------------------------------------

  predicate IsDigit(c: char) {
    '0' <= c <= '9'
  }

  function DigitChar(d: nat): (c: char)
    requires d < 10
    ensures IsDigit(c)
  {
    ['0', '1', '2', '3', '4', '5', '6', '7', '8', '9'][d]
  }

  function DigitValue(c: char): (d: nat)
    requires IsDigit(c)
    ensures d < 10
  {
    (c as int - '0' as int) as nat
  }

  lemma DigitRoundTrip(d: nat)
    requires d < 10
    ensures DigitValue(DigitChar(d)) == d
  {
  }

  /** `s` consists of decimal digits only. */
  predicate AllDigits(s: string) {
    forall i :: 0 <= i < |s| ==> IsDigit(s[i])
  }

  /** The decimal digits of `x`, most significant first, with no leading zero. */
  function Digits(x: nat): (s: string)
    ensures |s| > 0 && AllDigits(s)
    decreases x
  {
    if x < 10 then [DigitChar(x)] else Digits(x / 10) + [DigitChar(x % 10)]
  }

  /** How an `int` is written to an output stream. */
  function DecimalString(x: int): (s: string)
    ensures |s| > 0
    ensures ',' !in s
  {
    if x < 0 then "-" + Digits(-x) else Digits(x)
  }

  /** The value of a non-empty string of decimal digits. */
  function ParseDigits(s: string): nat
    requires |s| > 0 && AllDigits(s)
  {
    if |s| == 1 then DigitValue(s[0])
    else ParseDigits(s[..|s| - 1]) * 10 + DigitValue(s[|s| - 1])
  }

  /** Reads one integer as an output stream writes it; `None` for any other text. */
  function ParseInt(s: string): Option<int> {
    if |s| > 0 && s[0] == '-' then
      if |s| > 1 && AllDigits(s[1..]) then Some(-(ParseDigits(s[1..]) as int)) else None
    else if |s| > 0 && AllDigits(s) then Some(ParseDigits(s))
    else None
  }

  lemma {:induction false} DigitsRoundTrip(x: nat)
    ensures ParseDigits(Digits(x)) == x
    decreases x
  {
    if x < 10 {
      DigitRoundTrip(x);
    } else {
      var s := Digits(x);
      assert s[..|s| - 1] == Digits(x / 10);
      assert s[|s| - 1] == DigitChar(x % 10);
      DigitsRoundTrip(x / 10);
      DigitRoundTrip(x % 10);
    }
  }

  /** Every integer the printer writes reads back as itself. */
  lemma DecimalRoundTrip(x: int)
    ensures ParseInt(DecimalString(x)) == Some(x)
  {
    var s := DecimalString(x);
    if x < 0 {
      var d := Digits(-x);
      assert s == "-" + d;
      assert s[1..] == d;
      DigitsRoundTrip(-x);
      assert ParseInt(s) == Some(-(ParseDigits(d) as int));
    } else {
      assert s == Digits(x) && s[0] != '-';
      DigitsRoundTrip(x);
    }
  }

  // ---------------------------------------------------------------------
  // Joining and splitting on commas
  // ---------------------------------------------------------------------

  /** The decimal text of every element, in order. */
  function Texts(v: seq<int>): (ts: seq<string>)
    ensures |ts| == |v|
    ensures forall i :: 0 <= i < |v| ==> ts[i] == DecimalString(v[i])
  {
    seq(|v|, i requires 0 <= i < |v| => DecimalString(v[i]))
  }

  /** The pieces separated by single commas, with no comma before the first
      or after the last. */
  function Join(ts: seq<string>): string
  {
    if |ts| == 0 then ""
    else if |ts| == 1 then ts[0]
    else Join(ts[..|ts| - 1]) + "," + ts[|ts| - 1]
  }

  /** Index of the last comma of `s`, if any. */
  function LastComma(s: string): (r: Option<nat>)
    ensures r.None? ==> forall j :: 0 <= j < |s| ==> s[j] != ','
    ensures r.Some? ==> r.value < |s| && s[r.value] == ','
    ensures r.Some? ==> forall j :: r.value < j < |s| ==> s[j] != ','
  {
    if |s| == 0 then None
    else if s[|s| - 1] == ',' then Some(|s| - 1)
    else LastComma(s[..|s| - 1])
  }

  /** A comma with no comma after it is the last comma. */
  lemma LastCommaAt(s: string, k: nat)
    requires k < |s| && s[k] == ','
    requires forall j :: k < j < |s| ==> s[j] != ','
    ensures LastComma(s) == Some(k)
  {
  }

  /** The pieces of `s` between commas; the partner of `Join`. */
  function Split(s: string): seq<string>
    decreases |s|
  {
    match LastComma(s)
    case None => [s]
    case Some(k) => Split(s[..k]) + [s[k + 1..]]
  }

  /** Splitting a joined list of comma-free pieces gives back the pieces. */
  lemma {:induction false} SplitJoin(ts: seq<string>)
    requires |ts| > 0
    requires forall i :: 0 <= i < |ts| ==> ',' !in ts[i]
    ensures Split(Join(ts)) == ts
    decreases |ts|
  {
    if |ts| == 1 {
    } else {
      var init, last := ts[..|ts| - 1], ts[|ts| - 1];
      var s := Join(ts);
      assert s == Join(init) + "," + last;
      var k := |Join(init)|;
      assert s[k + 1..] == last;
      assert forall j :: k < j < |s| ==> s[j] == last[j - k - 1];
      LastCommaAt(s, k);
      assert s[..k] == Join(init);
      SplitJoin(init);
    }
  }

  // ---------------------------------------------------------------------
  // The printer and its parser
  // ---------------------------------------------------------------------

  /** The text the printer is meant to produce for `v`. */
  function Render(v: seq<int>): string {
    "[" + Join(Texts(v)) + "]"
  }

  /** What the printer has written after the element before index `i`:
      a comma unless that element is the last one or there is none. */
  function Separator(i: nat, n: nat): string {
    if 0 < i < n then "," else ""
  }

  /** `operator<<` as written: `[`, then for each index the element followed
      by `,` unless it is the last index `N-1`, then `]`. */
  method Print(v: seq<int>) returns (s: string)
    ensures s == Render(v)
  {
    var n := |v|;
    ghost var ts := Texts(v);
    s := "[";
    for i := 0 to n
      invariant s == "[" + Join(ts[..i]) + Separator(i, n)
    {
      PrintStep(ts, i, n);
      s := s + DecimalString(v[i]);
      if i != n - 1 {
        s := s + ",";
      }
    }
    assert ts[..n] == ts;
    s := s + "]";
  }

  /** One iteration of the printer's loop extends the joined prefix by one piece. */
  lemma PrintStep(ts: seq<string>, i: nat, n: nat)
    requires i < n == |ts|
    ensures "[" + Join(ts[..i]) + Separator(i, n) + ts[i] + (if i != n - 1 then "," else "")
         == "[" + Join(ts[..i + 1]) + Separator(i + 1, n)
  {
    JoinStep(ts, i);
    var sep := if i != n - 1 then "," else "";
    assert Separator(i + 1, n) == sep;
    if i == 0 {
      assert Join(ts[..i]) == "";
      assert "[" + "" + "" + ts[0] + sep == "[" + ts[0] + sep;
    } else {
      var j := Join(ts[..i]);
      assert "[" + j + "," + ts[i] + sep == "[" + (j + "," + ts[i]) + sep;
    }
  }

  /** Joining one more piece appends it, after a comma unless it is the first. */
  lemma JoinStep(ts: seq<string>, i: nat)
    requires i < |ts|
    ensures Join(ts[..i + 1]) == (if i == 0 then "" else Join(ts[..i]) + ",") + ts[i]
  {
    assert ts[..i + 1][..i] == ts[..i];
  }

  /** Reads every piece as an integer; `None` if one of them is not one. */
  function ParseAll(ts: seq<string>): (r: Option<seq<int>>)
    ensures r.Some? ==> |r.value| == |ts|
  {
    if |ts| == 0 then Some([])
    else match (ParseAll(ts[..|ts| - 1]), ParseInt(ts[|ts| - 1]))
      case (Some(init), Some(x)) => Some(init + [x])
      case _ => None
  }

  /** Reads text in the printer's format back into a vector. */
  function Parse(s: string): Option<seq<int>> {
    if |s| < 2 || s[0] != '[' || s[|s| - 1] != ']' then None
    else
      var inner := s[1..|s| - 1];
      if inner == "" then Some([]) else ParseAll(Split(inner))
  }

  lemma {:induction false} ParseAllTexts(v: seq<int>)
    ensures ParseAll(Texts(v)) == Some(v)
    decreases |v|
  {
    if |v| > 0 {
      var ts := Texts(v);
      var init, last := v[..|v| - 1], v[|v| - 1];
      assert ts[..|ts| - 1] == Texts(init);
      ParseAllTexts(init);
      DecimalRoundTrip(last);
      assert ParseInt(ts[|ts| - 1]) == Some(last);
      assert ParseAll(ts) == Some(init + [last]);
      assert init + [last] == v;
    }
  }

  /** The printed form of a vector reads back as that vector: the format
      keeps every element and their order. */
  lemma PrintRoundTrip(v: seq<int>)
    ensures Parse(Render(v)) == Some(v)
  {
    var s := Render(v);
    assert s[1..|s| - 1] == Join(Texts(v));
    if |v| > 0 {
      assert |Join(Texts(v))| > 0 by { JoinNonEmpty(Texts(v)); }
      SplitJoin(Texts(v));
      ParseAllTexts(v);
    }
  }

  lemma JoinNonEmpty(ts: seq<string>)
    requires |ts| > 0 && forall i :: 0 <= i < |ts| ==> |ts[i]| > 0
    ensures |Join(ts)| > 0
  {
  }

  /** The printed form opens with `[` and closes with `]`. */
  lemma RenderBrackets(v: seq<int>)
    ensures |Render(v)| >= 2
    ensures Render(v)[0] == '[' && Render(v)[|Render(v)| - 1] == ']'
  {
  }

  /** The printed form holds exactly `N - 1` commas for `N > 0` and none for
      `N == 0`: one between each pair of neighbouring elements. */
  lemma RenderCommaCount(v: seq<int>)
    ensures CommaCount(Render(v)) == if |v| == 0 then 0 else |v| - 1
  {
    var body := Join(Texts(v));
    JoinCommas(Texts(v));
    CountAppend("[", body);
    CountAppend("[" + body, "]");
    assert CommaCount("[") == 0 && CommaCount("]") == 0 by {
      NoCommaCount("[");
      NoCommaCount("]");
    }
  }

  /** There is no trailing comma: for `N > 0` the character before `]` is
      the last digit of the last element. */
  lemma RenderNoTrailingComma(v: seq<int>)
    requires |v| > 0
    ensures Render(v)[|Render(v)| - 2] != ','
  {
  }

  /** Number of commas in `s`. */
  function CommaCount(s: string): nat {
    if |s| == 0 then 0
    else CommaCount(s[..|s| - 1]) + (if s[|s| - 1] == ',' then 1 else 0)
  }

  lemma {:induction false} CountAppend(a: string, b: string)
    ensures CommaCount(a + b) == CommaCount(a) + CommaCount(b)
    decreases |b|
  {
    if |b| > 0 {
      assert (a + b)[..|a + b| - 1] == a + b[..|b| - 1];
      CountAppend(a, b[..|b| - 1]);
    } else {
      assert a + b == a;
    }
  }

  lemma {:induction false} NoCommaCount(s: string)
    requires ',' !in s
    ensures CommaCount(s) == 0
    decreases |s|
  {
    if |s| > 0 {
      assert s[..|s| - 1] <= s;
      NoCommaCount(s[..|s| - 1]);
    }
  }

  lemma {:induction false} JoinCommas(ts: seq<string>)
    requires forall i :: 0 <= i < |ts| ==> ',' !in ts[i]
    ensures CommaCount(Join(ts)) == if |ts| == 0 then 0 else |ts| - 1
    decreases |ts|
  {
    if |ts| == 1 {
      NoCommaCount(ts[0]);
    } else if |ts| > 1 {
      var init := ts[..|ts| - 1];
      JoinCommas(init);
      CountAppend(Join(init), ",");
      CountAppend(Join(init) + ",", ts[|ts| - 1]);
      NoCommaCount(ts[|ts| - 1]);
    }
  }
}
