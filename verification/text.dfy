/** The Python `str` operations the service relies on, over `seq<char>`:
    `strip`, `startswith`/`endswith`, `split(sep, 1)`, `rsplit(sep, 1)`
    and the decimal formatting of an `int` inside an f-string. */
module Text {
  import opened Wrappers

  /** Python's `str.isspace` on one character: the characters of the Basic
      Multilingual Plane that Unicode classes as whitespace or separators. */
  predicate IsSpace(c: char) {
    || c == ' '
    || ('\t' <= c <= '\r')
    || ('\U{1C}' <= c <= '\U{1F}')
    || c == '\U{85}'
    || c == '\U{A0}'
    || c == '\U{1680}'
    || ('\U{2000}' <= c <= '\U{200A}')
    || c == '\U{2028}'
    || c == '\U{2029}'
    || c == '\U{202F}'
    || c == '\U{205F}'
    || c == '\U{3000}'
  }

  /** On ASCII, `str.isspace` accepts exactly the space, the five controls
      tab to carriage return, and the four separators 0x1C to 0x1F. */
  lemma AsciiSpace(c: char)
    requires c < '\U{80}'
    ensures IsSpace(c) <==> c in " \t\n\U{B}\U{C}\r\U{1C}\U{1D}\U{1E}\U{1F}"
  {
    var ws := " \t\n\U{B}\U{C}\r\U{1C}\U{1D}\U{1E}\U{1F}";
    if IsSpace(c) {
      if c == ' ' { assert ws[0] == c; }
      else if c <= '\r' { assert ws[c as int - '\t' as int + 1] == c; }
      else { assert ws[c as int - '\U{1C}' as int + 6] == c; }
    }
  }

  ghost predicate AllSpace(s: string) {
    forall k | 0 <= k < |s| :: IsSpace(s[k])
  }

  /** Neither the first nor the last character is whitespace. */
  predicate NoEdgeSpace(s: string) {
    |s| == 0 || (!IsSpace(s[0]) && !IsSpace(s[|s| - 1]))
  }

  // ---------------------------------------------------------------------
  // strip

  /** `lstrip` scanning forward: the first index at or after `i` whose
      character is not whitespace, or `|s|`. */
  function SkipSpaces(s: string, i: nat): (j: nat)
    requires i <= |s|
    ensures i <= j <= |s|
    ensures forall k | i <= k < j :: IsSpace(s[k])
    ensures j == |s| || !IsSpace(s[j])
    decreases |s| - i
  {
    if i == |s| || !IsSpace(s[i]) then i else SkipSpaces(s, i + 1)
  }

  /** `rstrip` scanning backward from `j`, never below `lo`: one past the
      last character that is not whitespace, or `lo`. */
  function SkipSpacesBack(s: string, lo: nat, j: nat): (e: nat)
    requires lo <= j <= |s|
    ensures lo <= e <= j
    ensures forall k | e <= k < j :: IsSpace(s[k])
    ensures e == lo || !IsSpace(s[e - 1])
    decreases j
  {
    if j == lo || !IsSpace(s[j - 1]) then j else SkipSpacesBack(s, lo, j - 1)
  }

  /** `s.strip()`. */
  function Strip(s: string): (r: string)
    ensures NoEdgeSpace(r)
    ensures |r| <= |s|
  {
    var lo := SkipSpaces(s, 0);
    s[lo..SkipSpacesBack(s, lo, |s|)]
  }

  /** What `Strip` removes is whitespace on both sides and nothing else. */
  lemma StripDecomposes(s: string) returns (pre: string, post: string)
    ensures s == pre + Strip(s) + post
    ensures AllSpace(pre) && AllSpace(post)
  {
    var lo := SkipSpaces(s, 0);
    var hi := SkipSpacesBack(s, lo, |s|);
    pre := s[..lo];
    post := s[hi..];
    assert s == s[..lo] + s[lo..hi] + s[hi..];
  }

  /** A suffix and what precedes it make up the whole. */
  lemma SplitAtSuffix(s: string, r: string)
    requires |r| <= |s| && r == s[|s| - |r|..]
    ensures s == s[..|s| - |r|] + r
  {
  }

  /** A prefix and what follows it make up the whole. */
  lemma SplitAtPrefix(s: string, r: string)
    requires |r| <= |s| && r == s[..|r|]
    ensures s == r + s[|r|..]
  {
  }

  /** Regrouping a nest of three surroundings into one prefix and one suffix. */
  lemma ConcatRegroup(a: string, b: string, c: string, x: string, d: string, e: string, f: string)
    ensures a + (b + (c + x + d) + e) + f == (a + b + c) + x + (d + e + f)
  {
  }

  lemma {:induction false} SkipSpacesAt(s: string, i: nat, j: nat)
    requires i <= j <= |s|
    requires forall k | i <= k < j :: IsSpace(s[k])
    requires j == |s| || !IsSpace(s[j])
    ensures SkipSpaces(s, i) == j
    decreases j - i
  {
    if i < j {
      SkipSpacesAt(s, i + 1, j);
    }
  }

  lemma {:induction false} SkipSpacesBackAt(s: string, lo: nat, j: nat, e: nat)
    requires lo <= e <= j <= |s|
    requires forall k | e <= k < j :: IsSpace(s[k])
    requires e == lo || !IsSpace(s[e - 1])
    ensures SkipSpacesBack(s, lo, j) == e
    decreases j - e
  {
    if e < j {
      SkipSpacesBackAt(s, lo, j - 1, e);
    }
  }

  /** Reference characterisation: `Strip` returns the unique middle part
      between a whitespace prefix and a whitespace suffix whose own edges
      are not whitespace. */
  lemma StripUnique(pre: string, r: string, post: string)
    requires AllSpace(pre) && AllSpace(post) && NoEdgeSpace(r)
    ensures Strip(pre + r + post) == r
  {
    var x := pre + r + post;
    if |r| == 0 {
      SkipSpacesAt(x, 0, |x|);
      SkipSpacesBackAt(x, |x|, |x|, |x|);
    } else {
      SkipSpacesAt(x, 0, |pre|);
      SkipSpacesBackAt(x, |pre|, |x|, |pre| + |r|);
      assert x[|pre|..|pre| + |r|] == r;
    }
  }

  /** `Strip` leaves a string alone exactly when its edges are not whitespace. */
  lemma StripFixedPoint(s: string)
    ensures Strip(s) == s <==> NoEdgeSpace(s)
  {
    if NoEdgeSpace(s) {
      assert "" + s + "" == s;
      StripUnique("", s, "");
    }
  }

  /** `not s.strip()`: a string strips to nothing exactly when it is all
      whitespace. */
  lemma StripBlank(s: string)
    ensures Strip(s) == "" <==> AllSpace(s)
  {
    var lo := SkipSpaces(s, 0);
    if lo < |s| {
      var hi := SkipSpacesBack(s, lo, |s|);
      assert !IsSpace(s[lo]);
      assert lo < hi;
    }
  }

  lemma StripIdempotent(s: string)
    ensures Strip(Strip(s)) == Strip(s)
  {
    StripFixedPoint(Strip(s));
  }

  // ---------------------------------------------------------------------
  // substrings

  /** `t` occurs in `s` starting at index `at`. */
  predicate SliceAt(t: string, s: string, at: nat) {
    at + |t| <= |s| && s[at..at + |t|] == t
  }

  /** `needle` is a contiguous substring of `hay` (Python's `needle in hay`). */
  ghost predicate Occurs(needle: string, hay: string) {
    exists at: nat :: SliceAt(needle, hay, at)
  }

  lemma SliceAtTrans(u: string, t: string, s: string, a: nat, b: nat)
    requires SliceAt(t, s, a) && SliceAt(u, t, b)
    ensures SliceAt(u, s, a + b)
  {
    assert forall k | 0 <= k < |u| :: s[a + b + k] == t[b + k] == u[k];
    assert s[a + b..a + b + |u|] == u;
  }

  /** Anything concatenated around `t` still contains it. */
  lemma OccursInConcat(a: string, t: string, b: string)
    ensures SliceAt(t, a + t + b, |a|)
    ensures Occurs(t, a + t + b)
  {
    assert (a + t + b)[|a|..|a| + |t|] == t;
    assert SliceAt(t, a + t + b, |a|);
  }

  lemma OccursWithin(u: string, t: string, s: string)
    requires Occurs(u, t) && Occurs(t, s)
    ensures Occurs(u, s)
  {
    var b: nat :| SliceAt(u, t, b);
    var a: nat :| SliceAt(t, s, a);
    SliceAtTrans(u, t, s, a, b);
  }

  predicate StartsWith(s: string, prefix: string) {
    |prefix| <= |s| && s[..|prefix|] == prefix
  }

  predicate EndsWith(s: string, suffix: string) {
    |suffix| <= |s| && s[|s| - |suffix|..] == suffix
  }

  lemma ConcatAffixes(a: string, b: string)
    ensures StartsWith(a + b, a) && EndsWith(a + b, b)
  {
    assert (a + b)[..|a|] == a;
    assert (a + b)[|a|..] == b;
  }

  /** A prefix of `s` is a prefix of anything `s` begins. */
  lemma StartsWithExtends(s: string, prefix: string, more: string)
    requires StartsWith(s, prefix)
    ensures StartsWith(s + more, prefix)
  {
    assert (s + more)[..|prefix|] == s[..|prefix|];
  }

  /** A text that differs from `prefix` at some index does not start with it. */
  lemma MismatchNotPrefix(s: string, prefix: string, k: nat)
    requires k < |prefix| && k < |s| && s[k] != prefix[k]
    ensures !StartsWith(s, prefix)
  {
    assert |prefix| <= |s| ==> s[..|prefix|][k] == s[k];
  }

  lemma IndexInConcat(a: string, b: string, j: nat)
    requires j < |b|
    ensures (a + b)[|a| + j] == b[j]
  {
  }

  lemma ConcatAssoc(a: string, b: string, c: string)
    ensures a + (b + c) == a + b + c
  {
  }

  /** `s.find(c)` for one character, `None` for Python's -1. */
  function IndexOf(s: string, c: char): (r: Option<nat>)
    ensures r.Some? ==> r.value < |s| && s[r.value] == c
    ensures r.Some? ==> forall k | 0 <= k < r.value :: s[k] != c
    ensures r.None? ==> forall k | 0 <= k < |s| :: s[k] != c
  {
    if |s| == 0 then None
    else if s[0] == c then Some(0)
    else match IndexOf(s[1..], c)
      case None => None
      case Some(i) => Some(i + 1)
  }

  lemma {:induction false} IndexOfAt(s: string, c: char, i: nat)
    requires i < |s| && s[i] == c && c !in s[..i]
    ensures IndexOf(s, c) == Some(i)
    decreases i
  {
    if i > 0 {
      assert s[0] in s[..i];
      assert s[1..][..i - 1] == s[1..i];
      assert c !in s[1..i] by {
        assert forall x | x in s[1..i] :: x in s[..i];
      }
      IndexOfAt(s[1..], c, i - 1);
    }
  }

  /** `(head + sep + rest).split(sep, 1)[-1]` is `rest` when `head` has no `sep`. */
  lemma AfterFirstLine(head: string, sep: char, rest: string)
    requires sep !in head
    ensures AfterFirst(head + [sep] + rest, sep) == rest
  {
    var s := head + [sep] + rest;
    assert s[..|head|] == head;
    IndexOfAt(s, sep, |head|);
    assert s[|head| + 1..] == rest;
  }

  /** `s.rfind(pat)`: the start of the rightmost occurrence of `pat`. */
  function LastIndexOf(s: string, pat: string): (r: Option<nat>)
    requires |pat| > 0
    ensures r.Some? ==> SliceAt(pat, s, r.value)
    ensures r.Some? ==> forall k: nat | r.value < k :: !SliceAt(pat, s, k)
    ensures r.None? ==> forall k: nat :: !SliceAt(pat, s, k)
  {
    if |s| < |pat| then None
    else if s[|s| - |pat|..] == pat then Some(|s| - |pat|)
    else
      LastIndexOfStep(s, pat);
      LastIndexOf(s[..|s| - 1], pat)
  }

  /** When `s` does not end with `pat`, dropping its last character loses
      no occurrence of `pat`. */
  lemma LastIndexOfStep(s: string, pat: string)
    requires |pat| > 0 && |pat| <= |s| && s[|s| - |pat|..] != pat
    ensures forall k: nat :: SliceAt(pat, s, k) <==> SliceAt(pat, s[..|s| - 1], k)
  {
    forall k: nat
      ensures SliceAt(pat, s, k) <==> SliceAt(pat, s[..|s| - 1], k)
    {
      if k + |pat| < |s| {
        assert s[..|s| - 1][k..k + |pat|] == s[k..k + |pat|];
      } else if k + |pat| == |s| {
        assert s[k..k + |pat|] == s[|s| - |pat|..];
      }
    }
  }

  /** `s.split(sep, 1)[-1]`: the text after the first `sep`, or all of `s`
      when `sep` does not occur. */
  function AfterFirst(s: string, sep: char): (r: string)
    ensures |r| <= |s| && r == s[|s| - |r|..]
  {
    match IndexOf(s, sep)
    case None => s
    case Some(i) => s[i + 1..]
  }

  /** `s.rsplit(sep, 1)[0]`: the text before the last `sep`, or all of `s`
      when `sep` does not occur. */
  function BeforeLast(s: string, sep: string): (r: string)
    requires |sep| > 0
    ensures |r| <= |s| && r == s[..|r|]
  {
    match LastIndexOf(s, sep)
    case None => s
    case Some(i) => s[..i]
  }

  /** When `s` ends with `sep`, its last occurrence is the final one, so
      `rsplit(sep, 1)[0]` drops exactly that suffix. */
  lemma BeforeLastOfSuffix(s: string, sep: string)
    requires |sep| > 0 && EndsWith(s, sep)
    ensures BeforeLast(s, sep) + sep == s
  {
    assert SliceAt(sep, s, |s| - |sep|);
  }

  // ---------------------------------------------------------------------
  // decimal formatting of integers (`str(n)`, `f"{n}"`)

  predicate IsDigit(c: char) {
    '0' <= c <= '9'
  }

  function DigitChar(d: nat): (c: char)
    requires d < 10
    ensures IsDigit(c)
  {
    ('0' as int + d) as char
  }

  function NatToDecimal(n: nat): (r: string)
    ensures |r| > 0
    ensures forall k | 0 <= k < |r| :: IsDigit(r[k])
  {
    if n < 10 then [DigitChar(n)] else NatToDecimal(n / 10) + [DigitChar(n % 10)]
  }

  /** Python's `str(i)` for an `int`: a minus sign for negatives, then the digits. */
  function IntToDecimal(i: int): string {
    if i < 0 then "-" + NatToDecimal(-i) else NatToDecimal(i)
  }

  /** Reference reading of a digit string. */
  function DecimalValue(s: string): nat {
    if |s| == 0 then 0
    else
      var last := s[|s| - 1];
      var d := if IsDigit(last) then last as int - '0' as int else 0;
      DecimalValue(s[..|s| - 1]) * 10 + d
  }

  /** The length of the run of digits `s` starts with. */
  function DigitRun(s: string): (n: nat)
    ensures n <= |s|
    ensures forall k | 0 <= k < n :: IsDigit(s[k])
    ensures n == |s| || !IsDigit(s[n])
  {
    if |s| > 0 && IsDigit(s[0]) then
      var n := 1 + DigitRun(s[1..]);
      assert forall k | 1 <= k < n :: s[k] == s[1..][k - 1];
      n
    else 0
  }

  /** Python's `int()` applied to the integer a text begins with: an
      optional minus sign, then the longest run of digits. */
  function ReadInt(s: string): int {
    if |s| > 0 && s[0] == '-' then 0 - DecimalValue(s[1..][..DigitRun(s[1..])]) as int
    else DecimalValue(s[..DigitRun(s)])
  }

  /** A run of digits followed by a non-digit is exactly the digit run. */
  lemma DigitRunOf(digits: string, rest: string)
    requires forall k | 0 <= k < |digits| :: IsDigit(digits[k])
    requires |rest| == 0 || !IsDigit(rest[0])
    ensures DigitRun(digits + rest) == |digits|
    ensures (digits + rest)[..|digits|] == digits
  {
    var s := digits + rest;
    assert forall k | 0 <= k < |digits| :: s[k] == digits[k];
    assert |rest| > 0 ==> s[|digits|] == rest[0];
  }

  /** The integer an f-string writes is read back from the text it starts,
      whatever non-digit text follows it. */
  lemma ReadIntOfDecimal(i: int, rest: string)
    requires |rest| == 0 || !IsDigit(rest[0])
    ensures ReadInt(IntToDecimal(i) + rest) == i
  {
    var digits := NatToDecimal(if i < 0 then -i else i);
    NatToDecimalRoundTrip(if i < 0 then -i else i);
    DigitRunOf(digits, rest);
    if i < 0 {
      assert IntToDecimal(i) + rest == "-" + (digits + rest);
      ReadIntNegative(digits + rest, digits);
    } else {
      ReadIntNatural(digits + rest, digits);
    }
  }

  lemma ReadIntNatural(s: string, digits: string)
    requires |digits| > 0 && IsDigit(digits[0])
    requires DigitRun(s) == |digits| && s[..|digits|] == digits
    ensures ReadInt(s) == DecimalValue(digits)
  {
    assert s[0] == digits[0];
  }

  lemma ReadIntNegative(t: string, digits: string)
    requires DigitRun(t) == |digits| && t[..|digits|] == digits
    ensures ReadInt("-" + t) == 0 - DecimalValue(digits) as int
  {
    var s := "-" + t;
    assert s[0] == '-';
    assert s[1..] == t;
  }

  lemma {:induction false} NatToDecimalRoundTrip(n: nat)
    ensures DecimalValue(NatToDecimal(n)) == n
    decreases n
  {
    if n >= 10 {
      var prefix := NatToDecimal(n / 10);
      var s := prefix + [DigitChar(n % 10)];
      assert s[..|s| - 1] == prefix;
      NatToDecimalRoundTrip(n / 10);
    }
  }

  /** The formatted count can be read back: distinct counts give distinct text. */
  lemma IntToDecimalRoundTrip(i: int)
    ensures ReadInt(IntToDecimal(i)) == i
  {
    assert IntToDecimal(i) + "" == IntToDecimal(i);
    ReadIntOfDecimal(i, "");
  }
}
