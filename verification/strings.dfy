/**
  The string primitives the controller and the chat bot rely on: decimal
  formatting and parsing (strconv.FormatUint / ParseUint, fmt's %d), white
  space trimming, ASCII lower-casing, splitting on one separator, substring
  search and character replacement. Strings are sequences of code points.
 */
module Strings {
  import opened Values

  // ---------------------------------------------------------------------------
  // Decimal numbers
  // ---------------------------------------------------------------------------

  predicate IsDigit(c: char) {
    '0' <= c <= '9'
  }

  predicate AllDigits(s: string) {
    forall i :: 0 <= i < |s| ==> IsDigit(s[i])
  }

  /** A non-empty string of decimal digits, the only input ParseUint accepts in base 10. */
  predicate IsDecimal(s: string) {
    |s| > 0 && AllDigits(s)
  }

  function DigitValue(c: char): nat
    requires IsDigit(c)
  {
    c as int - '0' as int
  }

  function DigitChar(d: nat): (c: char)
    requires d < 10
    ensures IsDigit(c) && DigitValue(c) == d
  {
    ('0' as int + d) as char
  }

  /** The decimal rendering of `n` without leading zeros. */
  function NatToDecimal(n: nat): (s: string)
    ensures |s| >= 1 && AllDigits(s)
    ensures s[0] == '0' ==> n == 0
    decreases n
  {
    if n < 10 then [DigitChar(n)] else NatToDecimal(n / 10) + [DigitChar(n % 10)]
  }

  /** The number a digit string denotes in base ten. */
  function DecimalValue(s: string): nat
    requires AllDigits(s)
  {
    if |s| == 0 then 0 else 10 * DecimalValue(s[..|s| - 1]) + DigitValue(s[|s| - 1])
  }

  /** Reading back a rendered number gives the number. */
  lemma {:induction false} DecimalRoundTrip(n: nat)
    ensures DecimalValue(NatToDecimal(n)) == n
  {
    if n >= 10 {
      var s := NatToDecimal(n);
      assert s[..|s| - 1] == NatToDecimal(n / 10);
      DecimalRoundTrip(n / 10);
    }
  }

  /** Distinct numbers have distinct renderings. */
  lemma NatToDecimalInjective(m: nat, n: nat)
    requires NatToDecimal(m) == NatToDecimal(n)
    ensures m == n
  {
    DecimalRoundTrip(m);
    DecimalRoundTrip(n);
  }

  /** The longest prefix of `s` made of digits. */
  function DigitRun(s: string): (p: string)
    ensures |p| <= |s| && p == s[..|p|] && AllDigits(p)
    ensures |p| == |s| || !IsDigit(s[|p|])
    ensures AllDigits(s) ==> p == s
  {
    if |s| > 0 && IsDigit(s[0]) then [s[0]] + DigitRun(s[1..]) else []
  }

  /** The value Go's strconv.ParseUint(s, 10, 64) returns (its error is
      dropped by every caller). It reads the digits from the left and gives
      up with the largest uint64 as soon as the number read so far does not
      fit, before it looks at anything further; otherwise a string that is
      not all digits, the empty one included, gives 0. */
  function ParseUint64(s: string): (r: Uint64)
    ensures DecimalValue(DigitRun(s)) > MaxUint64 ==> r == MaxUint64
    ensures DecimalValue(DigitRun(s)) <= MaxUint64 && !IsDecimal(s) ==> r == 0
    ensures IsDecimal(s) && DecimalValue(s) <= MaxUint64 ==> r == DecimalValue(s)
  {
    var run := DigitRun(s);
    if DecimalValue(run) > MaxUint64 then MaxUint64
    else if !IsDecimal(s) then 0
    else DecimalValue(s)
  }

  /** A number too large for 64 bits parses as the largest uint64 whatever
      follows its digits, while a fitting number followed by a non-digit
      parses as 0. */
  lemma OverflowIgnoresSuffix(digits: string, rest: string)
    requires AllDigits(digits) && (rest == [] || !IsDigit(rest[0]))
    ensures DecimalValue(digits) > MaxUint64 ==> ParseUint64(digits + rest) == MaxUint64
    ensures DecimalValue(digits) <= MaxUint64 && rest != [] ==> ParseUint64(digits + rest) == 0
  {
    DigitRunOfDigits(digits, rest);
  }

  lemma {:induction false} DigitRunOfDigits(digits: string, rest: string)
    requires AllDigits(digits) && (rest == [] || !IsDigit(rest[0]))
    ensures DigitRun(digits + rest) == digits
  {
    if |digits| > 0 {
      assert (digits + rest)[1..] == digits[1..] + rest;
      DigitRunOfDigits(digits[1..], rest);
    }
  }

  /** Parsing the rendering of a uint64 gives it back. */
  lemma ParseFormatRoundTrip(n: Uint64)
    ensures ParseUint64(NatToDecimal(n)) == n
  {
    DecimalRoundTrip(n);
  }

  // ---------------------------------------------------------------------------
  // White space and case
  // ---------------------------------------------------------------------------

  /** Go's unicode.IsSpace. */
  predicate IsSpace(c: char) {
    || c == ' ' || c == '\t' || c == '\n' || c == '\U{000B}' || c == '\U{000C}' || c == '\r'
    || c == '\U{0085}' || c == '\U{00A0}' || c == '\U{1680}'
    || ('\U{2000}' <= c <= '\U{200A}')
    || c == '\U{2028}' || c == '\U{2029}' || c == '\U{202F}' || c == '\U{205F}' || c == '\U{3000}'
  }

  /** Drops leading white space. */
  function TrimLeft(s: string): (r: string)
    ensures |r| <= |s| && r == s[|s| - |r|..]
    ensures r == [] || !IsSpace(r[0])
    ensures forall i :: 0 <= i < |s| - |r| ==> IsSpace(s[i])
  {
    if |s| > 0 && IsSpace(s[0]) then TrimLeft(s[1..]) else s
  }

  /** Drops trailing white space. */
  function TrimRight(s: string): (r: string)
    ensures |r| <= |s| && r == s[..|r|]
    ensures r == [] || !IsSpace(r[|r| - 1])
    ensures forall i :: |r| <= i < |s| ==> IsSpace(s[i])
  {
    if |s| > 0 && IsSpace(s[|s| - 1]) then TrimRight(s[..|s| - 1]) else s
  }

  /** Go's strings.TrimSpace. */
  function TrimSpace(s: string): string
  {
    TrimRight(TrimLeft(s))
  }

  /** A string that neither starts nor ends with white space is its own
      trimming. */
  lemma TrimSpaceUntouched(s: string)
    requires s != [] && !IsSpace(s[0]) && !IsSpace(s[|s| - 1])
    ensures TrimSpace(s) == s
  {
  }

  /** The trimmed string starts and ends with a non-space and trimming again
      changes nothing. */
  lemma TrimSpaceTrimmed(s: string)
    ensures var t := TrimSpace(s);
      (t == [] || (!IsSpace(t[0]) && !IsSpace(t[|t| - 1]))) && TrimSpace(t) == t
  {
    var l := TrimLeft(s);
    var t := TrimRight(l);
    if t != [] {
      assert t[0] == l[0];
      assert TrimLeft(t) == t;
      assert TrimRight(t) == t;
    } else {
      assert TrimLeft(t) == t;
    }
  }

  function ToLowerChar(c: char): char
  {
    if 'A' <= c <= 'Z' then (c as int + 32) as char else c
  }

  /** Lower-casing of the ASCII letters: each of 'A'..'Z' moves to its
      lower-case letter 32 code points on, other characters are kept, and no
      upper-case letter is left. */
  function ToLower(s: string): (r: string)
    ensures |r| == |s| && IsLower(r)
    ensures forall i :: 0 <= i < |s| && 'A' <= s[i] <= 'Z' ==> r[i] as int == s[i] as int + 32
    ensures forall i :: 0 <= i < |s| && !('A' <= s[i] <= 'Z') ==> r[i] == s[i]
  {
    seq(|s|, i requires 0 <= i < |s| => ToLowerChar(s[i]))
  }

  /** No ASCII upper-case letter occurs in `s`. */
  predicate IsLower(s: string) {
    forall i :: 0 <= i < |s| ==> !('A' <= s[i] <= 'Z')
  }

  /** Lower-casing is idempotent, and it leaves a lower-case string as it is. */
  lemma ToLowerIsLower(s: string)
    ensures ToLower(ToLower(s)) == ToLower(s)
    ensures IsLower(s) ==> ToLower(s) == s
  {
  }

  /** Trimming a lower-case string leaves it lower-case. */
  lemma TrimKeepsLower(s: string)
    requires IsLower(s)
    ensures IsLower(TrimSpace(s))
  {
    var a, b := TrimSpaceIsSlice(s);
    var t := s[a..b];
    forall i | 0 <= i < |t| ensures !('A' <= t[i] <= 'Z') {
      assert t[i] == s[a + i];
    }
  }

  /** TrimSpace cuts a slice out of its input. */
  lemma TrimSpaceIsSlice(s: string) returns (a: nat, b: nat)
    ensures a <= b <= |s| && TrimSpace(s) == s[a..b]
  {
    var l := TrimLeft(s);
    var t := TrimRight(l);
    a := |s| - |l|;
    b := a + |t|;
    SliceOfSlice(s, a, |t|);
  }

  lemma ConcatAssoc(a: string, b: string, c: string)
    ensures a + b + c == a + (b + c)
  {
  }

  /** A string that starts with `w` is `w` and what follows it. */
  lemma WordThenRest(t: string, w: string)
    requires |t| >= |w| && t[..|w|] == w
    ensures t == w + t[|w|..]
  {
  }

  lemma SliceOfSlice(s: string, a: nat, k: nat)
    requires a + k <= |s|
    ensures s[a..][..k] == s[a..a + k]
  {
  }

  // ---------------------------------------------------------------------------
  // Splitting, joining, searching, replacing
  // ---------------------------------------------------------------------------

  /** The first index of `c` in `s`, or -1. */
  function IndexOfChar(s: string, c: char): (i: int)
    ensures -1 <= i < |s|
    ensures i >= 0 ==> s[i] == c && c !in s[..i]
    ensures i == -1 ==> c !in s
  {
    if |s| == 0 then -1
    else if s[0] == c then 0
    else
      var j := IndexOfChar(s[1..], c);
      if j < 0 then -1
      else
        assert s[..j + 1] == [s[0]] + s[1..][..j];
        j + 1
  }

  /** Puts `sep` between consecutive parts. */
  function Join(parts: seq<string>, sep: char): string
  {
    if |parts| == 0 then ""
    else if |parts| == 1 then parts[0]
    else parts[0] + [sep] + Join(parts[1..], sep)
  }

  /** Go's strings.Split with a one-character separator: at least one part,
      no part contains the separator, and joining the parts gives `s` back. */
  function Split(s: string, sep: char): (parts: seq<string>)
    ensures |parts| >= 1
    ensures forall k :: 0 <= k < |parts| ==> sep !in parts[k]
    ensures Join(parts, sep) == s
    decreases |s|
  {
    var i := IndexOfChar(s, sep);
    if i < 0 then [s]
    else
      var rest := Split(s[i + 1..], sep);
      assert s == s[..i] + [sep] + s[i + 1..];
      assert ([s[..i]] + rest)[1..] == rest;
      [s[..i]] + rest
  }

  /** A separator occurs in `s` exactly when the split has a second part. */
  lemma SplitHasSecondPart(s: string, sep: char)
    ensures sep in s <==> |Split(s, sep)| >= 2
  {
  }

  /** `pat` occurs in `text` at position `j`. */
  predicate OccursAt(text: string, pat: string, j: nat) {
    j + |pat| <= |text| && text[j..j + |pat|] == pat
  }

  function IndexFrom(text: string, pat: string, from: nat): (r: int)
    requires from <= |text|
    ensures r == -1 || (from <= r <= |text| && OccursAt(text, pat, r))
    ensures forall j: nat :: from <= j <= |text| && (r == -1 || j < r) ==> !OccursAt(text, pat, j)
    decreases |text| - from
  {
    if OccursAt(text, pat, from) then from
    else if from == |text| then -1
    else IndexFrom(text, pat, from + 1)
  }

  /** Go's strings.Index: the first position at which `pat` occurs, or -1. */
  function IndexOf(text: string, pat: string): (r: int)
    ensures r == -1 || (0 <= r && OccursAt(text, pat, r))
    ensures forall j: nat :: j <= |text| && (r == -1 || j < r) ==> !OccursAt(text, pat, j)
  {
    IndexFrom(text, pat, 0)
  }

  /** strings.ReplaceAll for a one-character pattern: every occurrence of
      `from` becomes `to` and every other character is kept, so `from` is
      gone afterwards and a string without it comes back as it was. */
  function ReplaceChar(s: string, from: char, to: char): (r: string)
    ensures |r| == |s|
    ensures forall i :: 0 <= i < |s| && s[i] == from ==> r[i] == to
    ensures forall i :: 0 <= i < |s| && s[i] != from ==> r[i] == s[i]
    ensures from != to ==> from !in r
    ensures from !in s ==> r == s
  {
    seq(|s|, i requires 0 <= i < |s| => if s[i] == from then to else s[i])
  }

  /** Replacing back undoes a replacement when the replacement character did
      not occur before. */
  lemma ReplaceCharUndo(s: string, from: char, to: char)
    requires to !in s
    ensures ReplaceChar(ReplaceChar(s, from, to), to, from) == s
  {
  }

  // ---------------------------------------------------------------------------
  // Words
  // ---------------------------------------------------------------------------

  /** A word: non-empty and free of white space. */
  predicate IsWord(w: string) {
    w != [] && forall i :: 0 <= i < |w| ==> !IsSpace(w[i])
  }

  /** Lower-casing a word gives a word, which trimming leaves as it is. */
  lemma LowerWordTrimmed(w: string)
    requires IsWord(w)
    ensures IsWord(ToLower(w)) && TrimSpace(ToLower(w)) == ToLower(w)
  {
    var l := ToLower(w);
    forall i | 0 <= i < |l| ensures !IsSpace(l[i]) {
      if 'A' <= w[i] <= 'Z' {
        assert 'a' <= l[i] <= 'z';
      }
    }
    TrimSpaceUntouched(l);
  }

  /** A word holds no space. */
  lemma WordHasNoBlank(w: string)
    requires IsWord(w)
    ensures ' ' !in w
  {
    forall i | 0 <= i < |w| ensures w[i] != ' ' {
      assert !IsSpace(w[i]);
    }
  }

  /** Leading white space in front of a non-space is all TrimLeft drops. */
  lemma {:induction false} TrimLeftSpaces(s: string, x: string)
    requires forall i :: 0 <= i < |s| ==> IsSpace(s[i])
    requires x != [] && !IsSpace(x[0])
    ensures TrimLeft(s + x) == x
  {
    if s != [] {
      assert (s + x)[1..] == s[1..] + x;
      TrimLeftSpaces(s[1..], x);
    }
  }

  /** Trimming white space, a word, then nothing or a space and anything,
      leaves the word in front, followed by nothing or by a space. */
  lemma TrimBeforeWord(s: string, w: string, tail: string)
    requires forall i :: 0 <= i < |s| ==> IsSpace(s[i])
    requires IsWord(w) && (tail == [] || tail[0] == ' ')
    ensures var t := TrimSpace(s + w + tail);
      |t| >= |w| && t[..|w|] == w && (|t| == |w| || t[|w|] == ' ')
  {
    var x := w + tail;
    assert s + w + tail == s + x;
    TrimLeftSpaces(s, x);
    TrimRightAfterWord(w, tail);
  }

  /** Trailing white space after a word is all TrimRight can drop. */
  lemma TrimRightAfterWord(w: string, tail: string)
    requires IsWord(w) && (tail == [] || tail[0] == ' ')
    ensures var t := TrimRight(w + tail);
      |t| >= |w| && t[..|w|] == w && (|t| == |w| || t[|w|] == ' ')
  {
    var x := w + tail;
    var t := TrimRight(x);
    assert x[|w| - 1] == w[|w| - 1];
    assert |t| >= |w|;
    assert t[..|w|] == x[..|w|];
    assert x[..|w|] == w;
    if |t| > |w| {
      assert t[|w|] == x[|w|];
    }
  }

  /** A part free of the separator, followed by nothing or by the separator,
      is the first part of the split. */
  lemma SplitFirstPart(w: string, tail: string, sep: char)
    requires sep !in w && (tail == [] || tail[0] == sep)
    ensures Split(w + tail, sep)[0] == w
  {
    var s := w + tail;
    assert s[..|w|] == w;
    if tail == [] {
      assert s == w;
    } else {
      assert s[|w|] == sep;
      FirstSeparator(s, |w|, sep);
    }
  }

  /** The separator at `i` with none before it is the first one. */
  lemma FirstSeparator(s: string, i: nat, sep: char)
    requires i < |s| && s[i] == sep && sep !in s[..i]
    ensures IndexOfChar(s, sep) == i
  {
  }

  /** A separator-free first part, the separator, then a separator-free
      part followed by nothing or by the separator: the latter is the second
      part of the split. */
  lemma SplitSecondPart(first: string, w: string, tail: string, sep: char)
    requires sep !in first && sep !in w && (tail == [] || tail[0] == sep)
    ensures var parts := Split(first + [sep] + w + tail, sep);
      |parts| >= 2 && parts[1] == w
  {
    var s := first + [sep] + w + tail;
    AroundSeparator(first, sep, w, tail);
    SplitAtFirst(s, |first|, sep);
    SplitFirstPart(w, tail, sep);
  }

  /** The pieces of first + [sep] + w + tail, read back by slicing. */
  lemma AroundSeparator(first: string, sep: char, w: string, tail: string)
    ensures var s := first + [sep] + w + tail;
      && |first| < |s| && s[..|first|] == first && s[|first|] == sep
      && s[|first| + 1..] == w + tail
  {
  }

  /** Splitting at the first separator: the part before it, then the split
      of the rest. */
  lemma SplitAtFirst(s: string, i: nat, sep: char)
    requires i < |s| && s[i] == sep && sep !in s[..i]
    ensures Split(s, sep) == [s[..i]] + Split(s[i + 1..], sep)
  {
    FirstSeparator(s, i, sep);
  }
}
