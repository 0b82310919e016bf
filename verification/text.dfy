/**
 * The handful of Python string operations the script relies on:
 * `str.isspace`, `str.strip`, `str.lower`, the `in` operator on strings,
 * `str.split()` without arguments, `str.isdigit` and zero-padded number
 * formatting (`%02d`, `%04d`).
 */
module Text {

  /** Python's `str.isspace` for a single character, by code point. */
  predicate IsSpace(c: char) {
    var n := c as int;
    (9 <= n <= 13) || (28 <= n <= 32) || n == 0x85 || n == 0xA0 || n == 0x1680
    || (0x2000 <= n <= 0x200A) || n == 0x2028 || n == 0x2029 || n == 0x202F
    || n == 0x205F || n == 0x3000
  }

  predicate AllSpace(s: string) {
    forall i :: 0 <= i < |s| ==> IsSpace(s[i])
  }

  predicate NoSpace(s: string) {
    forall i :: 0 <= i < |s| ==> !IsSpace(s[i])
  }

  predicate IsDigit(c: char) { '0' <= c <= '9' }

  predicate IsUpper(c: char) { 'A' <= c <= 'Z' }

  /** Python's `str.isdigit`: non-empty and made of digits only. */
  predicate IsDigits(s: string) {
    |s| > 0 && forall i :: 0 <= i < |s| ==> IsDigit(s[i])
  }

  function LowerChar(c: char): (r: char)
    ensures !IsUpper(r)
    ensures !IsUpper(c) ==> r == c
    ensures IsSpace(r) <==> IsSpace(c)
  {
    if IsUpper(c) then (c as int + 32) as char else c
  }

  /** Python's `str.lower`, on the ASCII letters. */
  function Lower(s: string): (r: string)
    ensures |r| == |s|
    ensures forall i :: 0 <= i < |s| ==> r[i] == LowerChar(s[i])
  {
    seq(|s|, i requires 0 <= i < |s| => LowerChar(s[i]))
  }

  predicate NoUpper(s: string) {
    forall i :: 0 <= i < |s| ==> !IsUpper(s[i])
  }

  lemma LowerHasNoUpper(s: string)
    ensures NoUpper(Lower(s))
  {
  }

  lemma LowerOfNoUpper(s: string)
    requires NoUpper(s)
    ensures Lower(s) == s
  {
  }

  lemma LowerConcat(a: string, b: string)
    ensures Lower(a + b) == Lower(a) + Lower(b)
  {
  }

  /** Number of whitespace characters at the front of `s`. */
  function LeadingSpaces(s: string): (n: nat)
    ensures n <= |s|
    ensures AllSpace(s[..n])
    ensures n < |s| ==> !IsSpace(s[n])
  {
    if |s| > 0 && IsSpace(s[0]) then
      var k := LeadingSpaces(s[1..]);
      assert s[..1 + k] == [s[0]] + s[1..][..k];
      1 + k
    else 0
  }

  /** Number of whitespace characters just before position `k` of `s`. */
  function SpacesBefore(s: string, k: nat): (n: nat)
    requires k <= |s|
    ensures n <= k
    ensures forall i :: k - n <= i < k ==> IsSpace(s[i])
    ensures n < k ==> !IsSpace(s[k - 1 - n])
  {
    if k > 0 && IsSpace(s[k - 1]) then 1 + SpacesBefore(s, k - 1) else 0
  }

  /** Number of whitespace characters at the end of `s`. */
  function TrailingSpaces(s: string): (n: nat)
    ensures n <= |s|
    ensures AllSpace(s[|s| - n..])
    ensures n < |s| ==> !IsSpace(s[|s| - 1 - n])
  {
    SpacesBefore(s, |s|)
  }

  /**
   * Python's `str.strip()`: drops the whitespace at both ends. The result
   * neither starts nor ends with whitespace, and it is empty exactly when
   * the input is all whitespace.
   */
  function Strip(s: string): (r: string)
    ensures |r| <= |s|
    ensures r != [] ==> !IsSpace(r[0]) && !IsSpace(r[|r| - 1])
    ensures r == [] <==> AllSpace(s)
  {
    var a := LeadingSpaces(s);
    var t := s[a..];
    var r := t[..|t| - TrailingSpaces(t)];
    assert r != [] ==> r[0] == s[a];
    assert a == |s| ==> s[..a] == s;
    assert a < |s| ==> !AllSpace(s) && r != [];
    r
  }

  lemma {:induction false} LeadingSpacesPadded(pre: string, s: string)
    requires AllSpace(pre)
    requires s == [] || !IsSpace(s[0])
    ensures LeadingSpaces(pre + s) == |pre|
    decreases |pre|
  {
    if pre != [] {
      assert (pre + s)[1..] == pre[1..] + s;
      LeadingSpacesPadded(pre[1..], s);
    }
  }

  lemma TrailingSpacesPadded(s: string, post: string)
    requires AllSpace(post)
    requires s == [] || !IsSpace(s[|s| - 1])
    ensures TrailingSpaces(s + post) == |post|
  {
    var x := s + post;
    assert forall i :: |s| <= i < |x| ==> IsSpace(x[i]);
    assert |s| > 0 ==> !IsSpace(x[|s| - 1]);
  }

  /**
   * Stripping removes exactly the whitespace padding around a string that
   * itself neither starts nor ends with whitespace.
   */
  lemma StripPadded(pre: string, s: string, post: string)
    requires AllSpace(pre) && AllSpace(post)
    requires s == [] || (!IsSpace(s[0]) && !IsSpace(s[|s| - 1]))
    ensures Strip(pre + s + post) == s
  {
    var x := pre + s + post;
    if s == [] {
      assert AllSpace(x);
    } else {
      LeadingSpacesPadded(pre, s + post);
      assert x == pre + (s + post);
      assert x[|pre|..] == s + post;
      TrailingSpacesPadded(s, post);
    }
  }

  lemma StripUnpadded(s: string)
    requires s == [] || (!IsSpace(s[0]) && !IsSpace(s[|s| - 1]))
    ensures Strip(s) == s
  {
    StripPadded([], s, []);
    assert [] + s + [] == s;
  }

  /** Python's `t in s` for strings: `t` occurs contiguously in `s`. */
  predicate Contains(s: string, t: string)
    decreases |s|
  {
    t <= s || (|s| > 0 && Contains(s[1..], t))
  }

  lemma ContainsItself(s: string)
    ensures Contains(s, s)
  {
  }

  /**
   * A lower-cased string contains no upper-case letter, so a needle that
   * holds one is never found in it.
   */
  lemma {:induction false} ContainsNoUpper(s: string, t: string)
    requires NoUpper(s)
    requires Contains(s, t)
    ensures NoUpper(t)
    decreases |s|
  {
    if !(t <= s) {
      ContainsNoUpper(s[1..], t);
    }
  }

  /** Length of the run of non-whitespace characters at the front of `s`. */
  function WordLength(s: string): (n: nat)
    ensures n <= |s|
    ensures NoSpace(s[..n])
    ensures n < |s| ==> IsSpace(s[n])
  {
    if |s| > 0 && !IsSpace(s[0]) then
      var k := WordLength(s[1..]);
      assert s[..1 + k] == [s[0]] + s[1..][..k];
      1 + k
    else 0
  }

  /**
   * Python's `str.split()` without arguments: the maximal runs of
   * non-whitespace characters, in order.
   */
  function Words(s: string): (ws: seq<string>)
    ensures forall i :: 0 <= i < |ws| ==> ws[i] != [] && NoSpace(ws[i])
    decreases |s|
  {
    var a := LeadingSpaces(s);
    if a == |s| then []
    else
      var rest := s[a..];
      var w := WordLength(rest);
      [rest[..w]] + Words(rest[w..])
  }

  lemma {:induction false} WordsOfAllSpace(s: string)
    requires AllSpace(s)
    ensures Words(s) == []
  {
    assert !(LeadingSpaces(s) < |s|);
  }

  lemma {:induction false} LeadingSpacesOfWord(sep: string, w: string)
    requires AllSpace(sep)
    requires w != [] && !IsSpace(w[0])
    ensures LeadingSpaces(sep + w) == |sep|
    decreases |sep|
  {
    if sep != [] {
      assert (sep + w)[1..] == sep[1..] + w;
      LeadingSpacesOfWord(sep[1..], w);
    }
  }

  lemma {:induction false} WordLengthOfWord(w: string, rest: string)
    requires NoSpace(w)
    requires rest == [] || IsSpace(rest[0])
    ensures WordLength(w + rest) == |w|
    decreases |w|
  {
    if w != [] {
      assert (w + rest)[1..] == w[1..] + rest;
      WordLengthOfWord(w[1..], rest);
    }
  }

  /** Whitespace, then a word, then the rest: the word is split off first. */
  lemma WordsCons(sep: string, w: string, rest: string)
    requires AllSpace(sep)
    requires w != [] && NoSpace(w)
    requires rest == [] || IsSpace(rest[0])
    ensures Words(sep + w + rest) == [w] + Words(rest)
  {
    var s := sep + w + rest;
    LeadingSpacesOfWord(sep, w + rest);
    assert s == sep + (w + rest);
    assert s[|sep|..] == w + rest;
    WordLengthOfWord(w, rest);
    assert (w + rest)[..|w|] == w && (w + rest)[|w|..] == rest;
  }

  /** A word followed by whitespace (or nothing) is split off first. */
  lemma WordsFirst(w: string, rest: string)
    requires w != [] && NoSpace(w)
    requires rest == [] || IsSpace(rest[0])
    ensures Words(w + rest) == [w] + Words(rest)
  {
    var s := w + rest;
    assert s[0] == w[0];
    assert LeadingSpaces(s) == 0;
    assert s[0..] == s;
    WordLengthOfWord(w, rest);
    assert s[..|w|] == w && s[|w|..] == rest;
  }

  /** Two words separated by whitespace split into exactly those two words. */
  lemma TwoWords(a: string, sep: string, b: string)
    requires AllSpace(sep) && sep != []
    requires a != [] && NoSpace(a) && b != [] && NoSpace(b)
    ensures Words(a + sep + b) == [a, b]
  {
    var tail := sep + b;
    WordsCons(sep, b, []);
    assert sep + b + [] == tail;
    WordsOfAllSpace([]);
    assert tail[0] == sep[0];
    WordsFirst(a, tail);
    assert a + tail == a + sep + b;
  }

  lemma NoWordsAllSpace(s: string)
    requires Words(s) == []
    ensures AllSpace(s)
  {
    assert LeadingSpaces(s) == |s| && s[..|s|] == s;
  }

  /** A string ending in a non-blank that holds one word is blanks and that word. */
  lemma OneWordJoined(t: string) returns (pre: string)
    requires t != [] && !IsSpace(t[|t| - 1])
    requires |Words(t)| == 1
    ensures AllSpace(pre) && t == pre + Words(t)[0]
  {
    var a := LeadingSpaces(t);
    var rest := t[a..];
    var w := WordLength(rest);
    assert Words(t) == [rest[..w]] + Words(rest[w..]);
    NoWordsAllSpace(rest[w..]);
    assert w == |rest|;
    pre := t[..a];
    assert t == pre + rest;
  }

  /**
   * The converse of `TwoWords`: a string without whitespace at its ends
   * that splits into two words is those two words joined by whitespace.
   */
  lemma TwoWordsJoined(s: string) returns (sep: string)
    requires s == [] || (!IsSpace(s[0]) && !IsSpace(s[|s| - 1]))
    requires |Words(s)| == 2
    ensures AllSpace(sep) && sep != []
    ensures s == Words(s)[0] + sep + Words(s)[1]
  {
    assert LeadingSpaces(s) == 0 && s[0..] == s;
    var w := WordLength(s);
    var t := s[w..];
    assert Words(s) == [s[..w]] + Words(t);
    assert t != [] && t[|t| - 1] == s[|s| - 1] && t[0] == s[w];
    sep := OneWordJoined(t);
    assert s == s[..w] + t;
  }

  /** Value of a decimal digit string (empty is 0). */
  function DigitsValue(s: string): (n: nat)
    requires forall i :: 0 <= i < |s| ==> IsDigit(s[i])
  {
    if s == [] then 0
    else
      assert IsDigit(s[|s| - 1]);
      10 * DigitsValue(s[..|s| - 1]) + (s[|s| - 1] as int - '0' as int)
  }

  function Pow10(w: nat): (p: nat)
    ensures p >= 1
  {
    if w == 0 then 1 else 10 * Pow10(w - 1)
  }

  function DigitChar(d: nat): (c: char)
    requires d < 10
    ensures IsDigit(c) && c as int - '0' as int == d
  {
    ('0' as int + d) as char
  }

  /** `n` written in exactly `width` decimal digits, zero-padded (`%0<width>d`). */
  function Padded(n: nat, width: nat): (s: string)
    requires n < Pow10(width)
    ensures |s| == width
    ensures forall i :: 0 <= i < |s| ==> IsDigit(s[i])
  {
    if width == 0 then "" else Padded(n / 10, width - 1) + [DigitChar(n % 10)]
  }

  /** Reading a zero-padded number back yields the number. */
  lemma {:induction false} PaddedValue(n: nat, width: nat)
    requires n < Pow10(width)
    ensures DigitsValue(Padded(n, width)) == n
  {
    if width > 0 {
      PaddedValue(n / 10, width - 1);
      var s := Padded(n, width);
      assert s[..|s| - 1] == Padded(n / 10, width - 1);
    }
  }

  /** A digit string is the zero-padded form of its own value. */
  lemma {:induction false} DigitsPadded(s: string)
    requires forall i :: 0 <= i < |s| ==> IsDigit(s[i])
    ensures DigitsValue(s) < Pow10(|s|)
    ensures Padded(DigitsValue(s), |s|) == s
  {
    if s != [] {
      var init := s[..|s| - 1];
      DigitsPadded(init);
      var n := DigitsValue(s);
      var d := s[|s| - 1] as int - '0' as int;
      assert n == 10 * DigitsValue(init) + d;
      assert n / 10 == DigitsValue(init) && n % 10 == d;
      assert s == init + [s[|s| - 1]];
    }
  }
}
