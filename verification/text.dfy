/** The string primitives the page scripts rely on, with JavaScript's semantics: number
    rendering (`String(n)`), ASCII `toLowerCase`, `indexOf`/`replace` of the first occurrence,
    `split` and `join`, `replaceAll` of one character, and the digit run a `\d+` captures. */
module Text {
  import opened Optional

  // ---------------------------------------------------------------------------------------
  // Decimal numbers
  // ---------------------------------------------------------------------------------------

  predicate IsDigit(c: char) {
    '0' <= c <= '9'
  }

  predicate AllDigits(s: string) {
    forall i :: 0 <= i < |s| ==> IsDigit(s[i])
  }

  function DigitChar(d: nat): (c: char)
    requires d < 10
    ensures IsDigit(c)
  {
    (('0' as int) + d) as char
  }

  function DigitValue(c: char): (d: nat)
    requires IsDigit(c)
    ensures d < 10
  {
    (c as int) - ('0' as int)
  }

  /** `String(n)` for a non-negative integer: its decimal digits, most significant first,
      with no leading zero. JavaScript prints this plain form only below 1e21, the range the
      page's numbers live in. */
  function Decimal(n: nat): (r: string)
    ensures |r| > 0 && AllDigits(r)
    ensures n == 0 <==> r == "0"
    ensures n > 0 ==> r[0] != '0'
    decreases n
  {
    if n < 10 then [DigitChar(n)] else Decimal(n / 10) + [DigitChar(n % 10)]
  }

  /** The number a string of decimal digits denotes (`Number(s)` for a digit string). */
  function ValueOf(s: string): nat
    requires AllDigits(s)
  {
    if |s| == 0 then 0 else ValueOf(s[..|s| - 1]) * 10 + DigitValue(s[|s| - 1])
  }

  /** Rendering a number and reading it back gives the number. */
  lemma {:induction false} DecimalRoundTrip(n: nat)
    ensures ValueOf(Decimal(n)) == n
  {
    if n >= 10 {
      var d := Decimal(n);
      assert d[..|d| - 1] == Decimal(n / 10);
      DecimalRoundTrip(n / 10);
    }
  }

  /** The longest prefix of `s` made of decimal digits: what a greedy `\d+` (or `\d*`)
      consumes at the start of `s`. */
  function DigitRun(s: string): (r: string)
    ensures AllDigits(r) && r <= s
    ensures |r| == |s| || !IsDigit(s[|r|])
  {
    if |s| == 0 || !IsDigit(s[0]) then "" else [s[0]] + DigitRun(s[1..])
  }

  /** A digit string followed by a non-digit is read back exactly. */
  lemma {:induction false} DigitRunOfDigits(d: string, rest: string)
    requires AllDigits(d)
    requires |rest| == 0 || !IsDigit(rest[0])
    ensures DigitRun(d + rest) == d
  {
    if |d| > 0 {
      assert (d + rest)[1..] == d[1..] + rest;
      DigitRunOfDigits(d[1..], rest);
    } else {
      assert d + rest == rest;
    }
  }

  // ---------------------------------------------------------------------------------------
  // Lower case
  // ---------------------------------------------------------------------------------------

  function LowerChar(c: char): (r: char)
    ensures 'A' <= c <= 'Z' ==> 'a' <= r <= 'z'
    ensures !('A' <= c <= 'Z') ==> r == c
  {
    if 'A' <= c <= 'Z' then ((c as int) + 32) as char else c
  }

  /** `toLowerCase`, for the ASCII letters. */
  function Lower(s: string): (r: string)
    ensures |r| == |s|
    ensures forall i :: 0 <= i < |s| ==> r[i] == LowerChar(s[i])
  {
    seq(|s|, i requires 0 <= i < |s| => LowerChar(s[i]))
  }

  /** `xs.map(x => x.toLowerCase())`. */
  function LowerAll(xs: seq<string>): (r: seq<string>)
    ensures |r| == |xs|
    ensures forall i :: 0 <= i < |xs| ==> r[i] == Lower(xs[i])
  {
    seq(|xs|, i requires 0 <= i < |xs| => Lower(xs[i]))
  }

  // ---------------------------------------------------------------------------------------
  // Searching and replacing
  // ---------------------------------------------------------------------------------------

  /** `pat` occurs in `s` starting at index `i`. */
  predicate OccursAt(s: string, pat: string, i: nat) {
    i + |pat| <= |s| && s[i..i + |pat|] == pat
  }

  /** `pat` occurs at `i` and nowhere before it. */
  predicate FirstOccurrence(s: string, pat: string, i: nat) {
    OccursAt(s, pat, i) && forall j: nat :: j < i ==> !OccursAt(s, pat, j)
  }

  /** `s.indexOf(pat)`: the first index at which `pat` occurs, `None` for `-1`. */
  function IndexOf(s: string, pat: string): (r: Option<nat>)
    ensures r.Some? ==> OccursAt(s, pat, r.value)
    ensures forall i: nat :: (r.None? || i < r.value) ==> !OccursAt(s, pat, i)
    decreases |s|
  {
    if |s| < |pat| then None
    else if s[..|pat|] == pat then Some(0)
    else
      assert forall i: nat :: 1 <= i ==> OccursAt(s, pat, i) == OccursAt(s[1..], pat, i - 1);
      match IndexOf(s[1..], pat)
      case None => None
      case Some(k) => Some(k + 1)
  }

  /** The first occurrence of `pat` in `x + pat + y` is right after `x` when `x` does not
      contain the first character of `pat`. */
  lemma {:induction false} IndexOfAfterPrefix(x: string, pat: string, y: string)
    requires |pat| > 0 && pat[0] !in x
    ensures IndexOf(x + pat + y, pat) == Some(|x|)
  {
    var s := x + pat + y;
    assert OccursAt(s, pat, |x|) by {
      assert s[|x|..|x| + |pat|] == pat;
    }
    forall i: nat | i < |x|
      ensures !OccursAt(s, pat, i)
    {
      assert s[i] == x[i];
    }
  }

  /** A string that does not contain the first character of `pat` does not contain `pat`. */
  lemma NoIndexWithoutFirstChar(s: string, pat: string)
    requires |pat| > 0 && pat[0] !in s
    ensures IndexOf(s, pat) == None
  {
  }

  predicate StartsWith(s: string, pat: string) {
    |pat| <= |s| && s[..|pat|] == pat
  }

  /** `s.replace(pat, rep)` with a string pattern: only the first occurrence is replaced. */
  function Replace(s: string, pat: string, rep: string): (r: string)
    ensures StartsWith(s, pat) ==> r == rep + s[|pat|..]
    ensures (forall i: nat :: !OccursAt(s, pat, i)) ==> r == s
    ensures forall i: nat :: FirstOccurrence(s, pat, i) ==> r == s[..i] + rep + s[i + |pat|..]
  {
    match IndexOf(s, pat)
    case None => s
    case Some(i) => s[..i] + rep + s[i + |pat|..]
  }

  /** `s.replaceAll(c, rep)` for a one-character pattern. */
  function ReplaceAllChar(s: string, c: char, rep: string): (r: string)
    ensures c !in s ==> r == s
  {
    if |s| == 0 then ""
    else (if s[0] == c then rep else [s[0]]) + ReplaceAllChar(s[1..], c, rep)
  }

  lemma {:induction false} ReplaceAllCharAppend(a: string, b: string, c: char, rep: string)
    ensures ReplaceAllChar(a + b, c, rep) == ReplaceAllChar(a, c, rep) + ReplaceAllChar(b, c, rep)
  {
    if |a| == 0 {
      assert a + b == b;
    } else {
      assert (a + b)[1..] == a[1..] + b;
      ReplaceAllCharAppend(a[1..], b, c, rep);
    }
  }

  // ---------------------------------------------------------------------------------------
  // Split and join
  // ---------------------------------------------------------------------------------------

  /** `xs.join(sep)`; `String(xs)` is `Join(xs, ",")`. */
  function Join(xs: seq<string>, sep: string): string
  {
    if |xs| == 0 then ""
    else if |xs| == 1 then xs[0]
    else xs[0] + sep + Join(xs[1..], sep)
  }

  /** `s.split(sep)` for a non-empty separator: always at least one piece (`"".split(sep)` is
      `[""]`), no piece contains `sep`, and joining the pieces back with `sep` gives `s`. */
  function Split(s: string, sep: string): (r: seq<string>)
    requires |sep| > 0
    ensures |r| > 0
    ensures forall k :: 0 <= k < |r| ==> IndexOf(r[k], sep).None?
    ensures Join(r, sep) == s
    decreases |s|
  {
    match IndexOf(s, sep)
    case None => [s]
    case Some(i) =>
      var rest := Split(s[i + |sep|..], sep);
      assert s == s[..i] + sep + s[i + |sep|..];
      NoIndexBefore(s, sep, i);
      [s[..i]] + rest
  }

  /** The text before the first occurrence of `pat` does not contain `pat`. */
  lemma NoIndexBefore(s: string, pat: string, i: nat)
    requires |pat| > 0 && IndexOf(s, pat) == Some(i)
    ensures IndexOf(s[..i], pat).None?
  {
    var x := s[..i];
    if IndexOf(x, pat).Some? {
      var j := IndexOf(x, pat).value;
      OccursInPrefix(s, pat, i, j);
      assert false;
    }
  }

  /** An occurrence inside a prefix is an occurrence in the whole text. */
  lemma OccursInPrefix(s: string, pat: string, i: nat, j: nat)
    requires i <= |s| && OccursAt(s[..i], pat, j)
    ensures OccursAt(s, pat, j) && j + |pat| <= i
  {
    assert s[..i][j..j + |pat|] == s[j..j + |pat|];
  }

  /** Splitting at a first separator that follows a piece free of its first character. */
  lemma SplitStep(x: string, sep: string, y: string)
    requires |sep| > 0 && sep[0] !in x
    ensures Split(x + sep + y, sep) == [x] + Split(y, sep)
  {
    var s := x + sep + y;
    IndexOfAfterPrefix(x, sep, y);
    assert s[|x| + |sep|..] == y;
    assert s[..|x|] == x;
  }

  /** Joining pieces that do not contain the separator's first character, and splitting the
      result, gives the pieces back. */
  lemma {:induction false} SplitJoin(xs: seq<string>, sep: string)
    requires |xs| > 0 && |sep| > 0
    requires forall k :: 0 <= k < |xs| ==> sep[0] !in xs[k]
    ensures Split(Join(xs, sep), sep) == xs
  {
    if |xs| == 1 {
      NoIndexWithoutFirstChar(xs[0], sep);
    } else {
      var tail := xs[1..];
      SplitStep(xs[0], sep, Join(tail, sep));
      SplitJoin(tail, sep);
      assert xs == [xs[0]] + tail;
    }
  }

  /** `String(xs).replaceAll(',', ', ')` is `xs.join(', ')` when no entry holds a comma. */
  lemma {:induction false} CommaListText(xs: seq<string>)
    requires forall k :: 0 <= k < |xs| ==> ',' !in xs[k]
    ensures ReplaceAllChar(Join(xs, ","), ',', ", ") == Join(xs, ", ")
  {
    if |xs| > 1 {
      calc {
        ReplaceAllChar(Join(xs, ","), ',', ", ");
        { assert Join(xs, ",") == xs[0] + ("," + Join(xs[1..], ",")); }
        ReplaceAllChar(xs[0] + ("," + Join(xs[1..], ",")), ',', ", ");
        { ReplaceAllCharAppend(xs[0], "," + Join(xs[1..], ","), ',', ", ");
          ReplaceAllCharAppend(",", Join(xs[1..], ","), ',', ", "); }
        ReplaceAllChar(xs[0], ',', ", ") + (", " + ReplaceAllChar(Join(xs[1..], ","), ',', ", "));
        { CommaListText(xs[1..]); }
        xs[0] + (", " + Join(xs[1..], ", "));
      }
    }
  }
}
