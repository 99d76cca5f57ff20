/**
 * The two string operations the front end relies on: Python's `str.strip()`
 * (with no argument) and `str.lower()`, restricted to ASCII, and the answer
 * normalisation `s.strip().lower()` built from them.
 */
module Text {

  /**
   * ASCII characters for which Python's `str.isspace()` holds: tab, line
   * feed, vertical tab, form feed and carriage return (9 to 13), the four
   * separators 28 to 31, and the space (32).
   */
  predicate IsSpace(c: char) {
    ('\t' <= c <= '\r') || ('\U{1C}' <= c <= ' ')
  }

  predicate AllSpace(s: string) {
    forall i :: 0 <= i < |s| ==> IsSpace(s[i])
  }

  /** Drops leading whitespace: the result is the suffix that starts at the first non-space. */
  function TrimStart(s: string): (r: string)
    ensures |r| <= |s|
    ensures AllSpace(s[..|s| - |r|])
    ensures r != [] ==> !IsSpace(r[0])
  {
    if |s| > 0 && IsSpace(s[0]) then TrimStart(s[1..]) else s
  }

  /** Drops trailing whitespace: the result is the prefix that ends at the last non-space. */
  function TrimEnd(s: string): (r: string)
    ensures |r| <= |s|
    ensures AllSpace(s[|r|..])
    ensures r != [] ==> !IsSpace(r[|r| - 1])
  {
    if |s| > 0 && IsSpace(s[|s| - 1]) then TrimEnd(s[..|s| - 1]) else s
  }

  /** `s.strip()`. */
  function Strip(s: string): string {
    TrimEnd(TrimStart(s))
  }

  function LowerChar(c: char): (d: char)
    ensures IsSpace(d) == IsSpace(c)
    ensures 'A' <= c <= 'Z' ==> d != c && d as int == c as int + 32
    ensures !('A' <= c <= 'Z') ==> d == c
  {
    if 'A' <= c <= 'Z' then (c as int + 32) as char else c
  }

  /** `s.lower()`: ASCII case folding, character by character. */
  function Lower(s: string): (r: string)
    ensures |r| == |s|
    ensures forall i :: 0 <= i < |s| ==> r[i] == LowerChar(s[i])
  {
    if s == [] then [] else [LowerChar(s[0])] + Lower(s[1..])
  }

  /** `s.strip().lower()`, the form in which the quiz compares answers. */
  function Normalise(s: string): string {
    Lower(Strip(s))
  }

  /** The correctness test of a submitted answer. */
  predicate AnswerMatches(userAnswer: string, answer: string) {
    Normalise(userAnswer) == Normalise(answer)
  }

  /** Python's truthiness of `s.strip()`: false exactly for all-whitespace text. */
  predicate IsBlank(s: string) {
    Strip(s) == []
  }

  // ---------------------------------------------------------------------------
  // Properties of Strip

  /** TrimStart's result is the suffix of its input that remains after the dropped whitespace. */
  lemma {:induction false} TrimStartIsSuffix(s: string)
    ensures TrimStart(s) == s[|s| - |TrimStart(s)|..]
  {
    if |s| > 0 && IsSpace(s[0]) {
      TrimStartIsSuffix(s[1..]);
      assert s[1..][|s| - 1 - |TrimStart(s)|..] == s[|s| - |TrimStart(s)|..];
    }
  }

  /** TrimEnd's result is the prefix of its input that remains before the dropped whitespace. */
  lemma {:induction false} TrimEndIsPrefix(s: string)
    ensures TrimEnd(s) == s[..|TrimEnd(s)|]
  {
    if |s| > 0 && IsSpace(s[|s| - 1]) {
      TrimEndIsPrefix(s[..|s| - 1]);
    }
  }

  /** Strip removes only whitespace, and only from the two ends. */
  lemma StripIsTrimmedSlice(s: string)
    ensures exists i, j :: 0 <= i <= j <= |s| && Strip(s) == s[i..j]
                           && AllSpace(s[..i]) && AllSpace(s[j..])
    ensures Strip(s) != [] ==> !IsSpace(Strip(s)[0]) && !IsSpace(Strip(s)[|Strip(s)| - 1])
  {
    var t := TrimStart(s);
    var u := TrimEnd(t);
    TrimStartIsSuffix(s);
    TrimEndIsPrefix(t);
    var i := |s| - |t|;
    var j := i + |u|;
    assert t == s[i..];
    assert u == t[..|u|];
    assert u == s[i..j];
    assert s[j..] == t[|u|..];
  }

  lemma {:induction false} TrimStartOfSpace(s: string)
    requires AllSpace(s)
    ensures TrimStart(s) == []
  {
    if |s| > 0 {
      TrimStartOfSpace(s[1..]);
    }
  }

  lemma {:induction false} TrimStartSkipsPrefix(w: string, x: string)
    requires AllSpace(w)
    ensures TrimStart(w + x) == TrimStart(x)
  {
    if |w| > 0 {
      assert (w + x)[0] == w[0];
      assert (w + x)[1..] == w[1..] + x;
      TrimStartSkipsPrefix(w[1..], x);
    } else {
      assert w + x == x;
    }
  }

  lemma {:induction false} TrimEndSkipsSuffix(x: string, w: string)
    requires AllSpace(w)
    ensures TrimEnd(x + w) == TrimEnd(x)
  {
    if |w| > 0 {
      assert (x + w)[..|x + w| - 1] == x + w[..|w| - 1];
      TrimEndSkipsSuffix(x, w[..|w| - 1]);
    } else {
      assert x + w == x;
    }
  }

  lemma {:induction false} TrimStartKeepsSuffix(s: string, w: string)
    requires TrimStart(s) != []
    ensures TrimStart(s + w) == TrimStart(s) + w
  {
    if IsSpace(s[0]) {
      assert (s + w)[1..] == s[1..] + w;
      TrimStartKeepsSuffix(s[1..], w);
    }
  }

  /** `(w + s + w').strip() == s.strip()` for whitespace padding `w`, `w'`. */
  lemma StripIgnoresPadding(w: string, s: string, w': string)
    requires AllSpace(w) && AllSpace(w')
    ensures Strip(w + s + w') == Strip(s)
  {
    assert w + s + w' == w + (s + w');
    TrimStartSkipsPrefix(w, s + w');
    if TrimStart(s) != [] {
      TrimStartKeepsSuffix(s, w');
      TrimEndSkipsSuffix(TrimStart(s), w');
    } else {
      assert AllSpace(s);
      assert AllSpace(s + w');
      TrimStartOfSpace(s + w');
    }
  }

  /** Text whose ends are not whitespace is left alone by Strip. */
  lemma StripOfTrimmed(s: string)
    requires s != [] ==> !IsSpace(s[0]) && !IsSpace(s[|s| - 1])
    ensures Strip(s) == s
  {
  }

  lemma StripIdempotent(s: string)
    ensures Strip(Strip(s)) == Strip(s)
  {
    StripIsTrimmedSlice(s);
    StripOfTrimmed(Strip(s));
  }

  /** A text is blank exactly when every character of it is whitespace. */
  lemma BlankIffAllSpace(s: string)
    ensures IsBlank(s) <==> AllSpace(s)
  {
    if AllSpace(s) {
      TrimStartOfSpace(s);
    }
  }

  // ---------------------------------------------------------------------------
  // Properties of Lower and Normalise

  lemma LowerIdempotent(s: string)
    ensures Lower(Lower(s)) == Lower(s)
  {
  }

  lemma {:induction false} TrimStartLower(s: string)
    ensures TrimStart(Lower(s)) == Lower(TrimStart(s))
  {
    if |s| > 0 {
      var l := Lower(s);
      assert l[0] == LowerChar(s[0]);
      if IsSpace(s[0]) {
        assert l[1..] == Lower(s[1..]);
        assert TrimStart(l) == TrimStart(l[1..]);
        TrimStartLower(s[1..]);
      } else {
        assert TrimStart(l) == l;
      }
    }
  }

  lemma {:induction false} TrimEndLower(s: string)
    ensures TrimEnd(Lower(s)) == Lower(TrimEnd(s))
  {
    if |s| > 0 {
      var n := |s| - 1;
      var l := Lower(s);
      assert l[n] == LowerChar(s[n]);
      if IsSpace(s[n]) {
        assert l[..n] == Lower(s[..n]);
        assert TrimEnd(l) == TrimEnd(l[..n]);
        TrimEndLower(s[..n]);
      } else {
        assert TrimEnd(l) == l;
      }
    }
  }

  /** Case folding and trimming commute. */
  lemma StripLower(s: string)
    ensures Strip(Lower(s)) == Lower(Strip(s))
  {
    TrimStartLower(s);
    TrimEndLower(TrimStart(s));
  }

  /** Normalising twice is normalising once. */
  lemma NormaliseIdempotent(s: string)
    ensures Normalise(Normalise(s)) == Normalise(s)
  {
    StripLower(Strip(s));
    StripIdempotent(s);
    LowerIdempotent(Strip(s));
  }

  /** Answer matching ignores ASCII case on either side. */
  lemma MatchIgnoresCase(userAnswer: string, answer: string)
    ensures AnswerMatches(Lower(userAnswer), answer) == AnswerMatches(userAnswer, answer)
    ensures AnswerMatches(userAnswer, Lower(answer)) == AnswerMatches(userAnswer, answer)
  {
    StripLower(userAnswer);
    LowerIdempotent(Strip(userAnswer));
    StripLower(answer);
    LowerIdempotent(Strip(answer));
  }

  /** Answer matching ignores whitespace around the submitted answer. */
  lemma MatchIgnoresPadding(w: string, userAnswer: string, w': string, answer: string)
    requires AllSpace(w) && AllSpace(w')
    ensures AnswerMatches(w + userAnswer + w', answer) == AnswerMatches(userAnswer, answer)
  {
    StripIgnoresPadding(w, userAnswer, w');
  }

  /** The worked example: " paris " is accepted for the answer "Paris". */
  lemma ParisExample()
    ensures Normalise(" paris ") == "paris"
    ensures AnswerMatches(" paris ", "Paris")
  {
    assert " paris "[1..] == "paris ";
    assert TrimStart(" paris ") == "paris ";
    assert "paris "[..5] == "paris";
    assert TrimEnd("paris ") == "paris";
    assert Strip("Paris") == "Paris";
    LowerOfLowerCase("paris");
    assert Lower("Paris") == "paris";
  }

  /** Text without upper-case letters is its own lower-case form. */
  lemma LowerOfLowerCase(s: string)
    requires forall i :: 0 <= i < |s| ==> !('A' <= s[i] <= 'Z')
    ensures Lower(s) == s
  {
  }
}
