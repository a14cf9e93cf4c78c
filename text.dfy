/**
 * The two string operations of Python that the status parser relies on,
 * called without arguments: `str.strip()` and `str.split()`.
 */
module Text {

  /**
   * Python's whitespace: the characters for which `str.isspace()` holds
   * from Python 3.4 on (before that, U+180E was whitespace as well).
   */
  predicate IsSpace(c: char) {
    ('\U{9}' <= c <= '\U{D}') || ('\U{1C}' <= c <= '\U{20}') || c == '\U{85}' || c == '\U{A0}'
    || c == '\U{1680}' || ('\U{2000}' <= c <= '\U{200A}') || c == '\U{2028}' || c == '\U{2029}'
    || c == '\U{202F}' || c == '\U{205F}' || c == '\U{3000}'
  }

  predicate AllSpace(s: string) {
    forall i :: 0 <= i < |s| ==> IsSpace(s[i])
  }

  predicate NoSpace(s: string) {
    forall i :: 0 <= i < |s| ==> !IsSpace(s[i])
  }

  /** A word as `str.split()` yields it: non-empty and free of whitespace. */
  predicate IsToken(w: string) {
    |w| > 0 && NoSpace(w)
  }

  /** `s` without its leading whitespace. */
  function TrimStart(s: string): (r: string)
    ensures |r| <= |s|
    ensures r == [] || !IsSpace(r[0])
    decreases |s|
  {
    if |s| > 0 && IsSpace(s[0]) then TrimStart(s[1..]) else s
  }

  /** `s` without its trailing whitespace. */
  function TrimEnd(s: string): (r: string)
    ensures |r| <= |s|
    decreases |s|
  {
    if |s| > 0 && IsSpace(s[|s| - 1]) then TrimEnd(s[..|s| - 1]) else s
  }

  /** `s.strip()`: what is left neither starts nor ends with whitespace. */
  function Strip(s: string): (r: string)
    ensures |r| <= |s|
    ensures r == [] || (!IsSpace(r[0]) && !IsSpace(r[|r| - 1]))
  {
    var t := TrimStart(s);
    TrimEndRemovesSpace(t);
    TrimEnd(t)
  }

  /** The length of the run of non-space characters at the start of `s`. */
  function WordLen(s: string): (n: nat)
    ensures n <= |s|
    ensures |s| > 0 && !IsSpace(s[0]) ==> n > 0
    decreases |s|
  {
    if |s| > 0 && !IsSpace(s[0]) then 1 + WordLen(s[1..]) else 0
  }

  /**
   * `s.split()`: the maximal runs of non-space characters of `s`, in order.
   * Every word takes up at least one character of `s`.
   */
  function Split(s: string): (r: seq<string>)
    ensures |r| <= |s|
    decreases |s|
  {
    var t := TrimStart(s);
    if t == [] then []
    else
      var n := WordLen(t);
      [t[..n]] + Split(t[n..])
  }

  /** The words `ws` separated by single spaces: the inverse of `Split` on words. */
  function Join(ws: seq<string>): string
    decreases |ws|
  {
    if |ws| == 0 then ""
    else if |ws| == 1 then ws[0]
    else ws[0] + " " + Join(ws[1..])
  }

  /** `TrimStart` removes exactly a whitespace prefix and keeps the rest. */
  lemma {:induction false} TrimStartRemovesSpace(s: string)
    ensures s == s[..|s| - |TrimStart(s)|] + TrimStart(s)
    ensures AllSpace(s[..|s| - |TrimStart(s)|])
    decreases |s|
  {
    if |s| > 0 && IsSpace(s[0]) {
      TrimStartRemovesSpace(s[1..]);
      var k := |s| - |TrimStart(s)|;
      assert s[1..][..k - 1] == s[1..k];
      assert s[..k] == [s[0]] + s[1..k];
    }
  }

  /** `TrimEnd` removes exactly a whitespace suffix, up to a last non-space. */
  lemma {:induction false} TrimEndRemovesSpace(s: string)
    ensures s == TrimEnd(s) + s[|TrimEnd(s)|..]
    ensures AllSpace(s[|TrimEnd(s)|..])
    ensures TrimEnd(s) == [] || !IsSpace(TrimEnd(s)[|TrimEnd(s)| - 1])
    decreases |s|
  {
    if |s| > 0 && IsSpace(s[|s| - 1]) {
      var s' := s[..|s| - 1];
      TrimEndRemovesSpace(s');
      var k := |TrimEnd(s)|;
      assert s[k..] == s'[k..] + [s[|s| - 1]];
    }
  }

  /** The first word runs up to, and not including, the first whitespace character. */
  lemma {:induction false} WordLenStopsAtSpace(s: string)
    ensures NoSpace(s[..WordLen(s)])
    ensures WordLen(s) < |s| ==> IsSpace(s[WordLen(s)])
    decreases |s|
  {
    if |s| > 0 && !IsSpace(s[0]) {
      WordLenStopsAtSpace(s[1..]);
      assert s[..WordLen(s)] == [s[0]] + s[1..][..WordLen(s[1..])];
    }
  }

  /** Leading whitespace does not change `TrimStart`. */
  lemma {:induction false} TrimStartSpacePrefix(w: string, x: string)
    requires AllSpace(w)
    ensures TrimStart(w + x) == TrimStart(x)
    decreases |w|
  {
    if w == [] {
      assert w + x == x;
    } else {
      assert (w + x)[0] == w[0];
      assert (w + x)[1..] == w[1..] + x;
      TrimStartSpacePrefix(w[1..], x);
    }
  }

  /** An all-whitespace string trims to nothing. */
  lemma TrimStartAllSpace(w: string)
    requires AllSpace(w)
    ensures TrimStart(w) == []
  {
  }

  /** `strip()` is empty exactly for all-whitespace input. */
  lemma StripEmptyIffAllSpace(s: string)
    ensures Strip(s) == [] <==> AllSpace(s)
  {
    var t := TrimStart(s);
    TrimStartRemovesSpace(s);
    TrimEndRemovesSpace(t);
    if AllSpace(s) {
      TrimStartAllSpace(s);
    } else {
      assert t != [];
      assert !IsSpace(t[0]);
      assert t[|TrimEnd(t)|..] == t ==> TrimEnd(t) == [];
    }
  }

  /** Every string is its stripped text between two runs of whitespace. */
  lemma StripSplits(s: string) returns (pre: string, post: string)
    ensures s == pre + Strip(s) + post
    ensures AllSpace(pre) && AllSpace(post)
  {
    var t := TrimStart(s);
    TrimStartRemovesSpace(s);
    TrimEndRemovesSpace(t);
    pre := s[..|s| - |t|];
    post := t[|TrimEnd(t)|..];
  }

  /** Trailing text after a non-space is carried along by `TrimStart`. */
  lemma {:induction false} TrimStartKeepsSuffix(d: string, w: string)
    requires TrimStart(d) != []
    ensures TrimStart(d + w) == TrimStart(d) + w
    decreases |d|
  {
    if IsSpace(d[0]) {
      assert (d + w)[1..] == d[1..] + w;
      TrimStartKeepsSuffix(d[1..], w);
    }
  }

  /** Trailing whitespace does not change `TrimEnd`. */
  lemma {:induction false} TrimEndSpaceSuffix(x: string, w: string)
    requires AllSpace(w)
    ensures TrimEnd(x + w) == TrimEnd(x)
    decreases |w|
  {
    if w == [] {
      assert x + w == x;
    } else {
      var w' := w[..|w| - 1];
      assert (x + w)[|x + w| - 1] == w[|w| - 1];
      assert (x + w)[..|x + w| - 1] == x + w';
      TrimEndSpaceSuffix(x, w');
    }
  }

  /** Whitespace around a string changes nothing once the string is stripped. */
  lemma StripPadded(w1: string, d: string, w2: string)
    requires AllSpace(w1) && AllSpace(w2)
    ensures Strip(w1 + d + w2) == Strip(d)
  {
    assert w1 + d + w2 == w1 + (d + w2);
    TrimStartSpacePrefix(w1, d + w2);
    StripSpaceSuffix(d, w2);
  }

  /** Trailing whitespace changes nothing once the string is stripped. */
  lemma StripSpaceSuffix(d: string, w: string)
    requires AllSpace(w)
    ensures TrimEnd(TrimStart(d + w)) == TrimEnd(TrimStart(d))
  {
    if TrimStart(d) != [] {
      TrimStartKeepsSuffix(d, w);
      TrimEndSpaceSuffix(TrimStart(d), w);
    } else {
      TrimStartRemovesSpace(d);
      assert d == d[..|d|];
      TrimStartSpacePrefix(d, w);
      TrimStartAllSpace(w);
    }
  }

  /** A word ends where it ended before when what is appended cannot extend it. */
  lemma {:induction false} WordLenAppend(t: string, w: string)
    requires WordLen(t) < |t| || w == [] || IsSpace(w[0])
    ensures WordLen(t + w) == WordLen(t)
    decreases |t|
  {
    if |t| > 0 && !IsSpace(t[0]) {
      assert (t + w)[1..] == t[1..] + w;
      WordLenAppend(t[1..], w);
    } else if |t| == 0 {
      assert t + w == w;
    }
  }

  /** A string without whitespace is one word to its end. */
  lemma {:induction false} WordLenOfWord(w: string)
    requires NoSpace(w)
    ensures WordLen(w) == |w|
    decreases |w|
  {
    if |w| > 0 {
      WordLenOfWord(w[1..]);
    }
  }

  /** Every word `Split` yields is non-empty and free of whitespace. */
  lemma {:induction false} SplitYieldsTokens(s: string)
    ensures forall k :: 0 <= k < |Split(s)| ==> IsToken(Split(s)[k])
    decreases |s|
  {
    var t := TrimStart(s);
    if t != [] {
      var n := WordLen(t);
      WordLenStopsAtSpace(t);
      assert IsToken(t[..n]);
      SplitYieldsTokens(t[n..]);
    }
  }

  /** One step of `Split` on a string whose first character is a non-space. */
  lemma SplitFirstWord(t: string)
    requires t != [] && !IsSpace(t[0])
    ensures Split(t) == [t[..WordLen(t)]] + Split(t[WordLen(t)..])
  {
  }

  /** Leading whitespace does not change `Split`. */
  lemma SplitSpacePrefix(w: string, x: string)
    requires AllSpace(w)
    ensures Split(w + x) == Split(x)
  {
    TrimStartSpacePrefix(w, x);
  }

  /** An all-whitespace string has no words. */
  lemma SplitAllSpace(w: string)
    requires AllSpace(w)
    ensures Split(w) == []
  {
    TrimStartAllSpace(w);
  }

  /** Trailing whitespace does not change `Split`. */
  lemma {:induction false} SplitSpaceSuffix(x: string, w: string)
    requires AllSpace(w)
    ensures Split(x + w) == Split(x)
    decreases |x|
  {
    var t := TrimStart(x);
    SplitFromTrimmed(x, w);
    if t == [] {
      assert t + w == w;
      SplitAllSpace(w);
    } else {
      SplitSpaceSuffix(t[WordLen(t)..], w);
      SplitWordSpaceSuffix(t, w);
    }
  }

  /** `Split` of `x` and of `x + w` both start from `x` with its leading whitespace removed. */
  lemma SplitFromTrimmed(x: string, w: string)
    ensures Split(x) == Split(TrimStart(x))
    ensures Split(x + w) == Split(TrimStart(x) + w)
  {
    var t := TrimStart(x);
    assert TrimStart(t) == t;
    if t != [] {
      TrimStartKeepsSuffix(x, w);
      assert (t + w)[0] == t[0];
      assert TrimStart(t + w) == t + w;
    } else {
      TrimStartRemovesSpace(x);
      assert x == x[..|x|];
      SplitSpacePrefix(x, w);
      assert t + w == w;
    }
  }

  /** The step of `SplitSpaceSuffix` for a string that starts with a word. */
  lemma SplitWordSpaceSuffix(t: string, w: string)
    requires t != [] && !IsSpace(t[0]) && AllSpace(w)
    requires Split(t[WordLen(t)..] + w) == Split(t[WordLen(t)..])
    ensures Split(t + w) == Split(t)
  {
    var n := WordLen(t);
    var tw := t + w;
    assert n == |t| ==> w == [] || IsSpace(w[0]);
    WordLenAppend(t, w);
    assert tw[0] == t[0];
    SplitFirstWord(t);
    SplitFirstWord(tw);
    AppendSlices(t, w, n);
  }

  /** Cutting `a + b` inside `a`. */
  lemma AppendSlices(a: string, b: string, n: nat)
    requires n <= |a|
    ensures (a + b)[..n] == a[..n] && (a + b)[n..] == a[n..] + b
  {
  }

  /** Whitespace around a string does not change its words. */
  lemma SplitPadded(w1: string, d: string, w2: string)
    requires AllSpace(w1) && AllSpace(w2)
    ensures Split(w1 + d + w2) == Split(d)
  {
    assert w1 + d + w2 == w1 + (d + w2);
    SplitSpacePrefix(w1, d + w2);
    SplitSpaceSuffix(d, w2);
  }

  /** Joining a word in front of at least one more adds one space. */
  lemma JoinCons(w: string, ws: seq<string>)
    requires |ws| > 0
    ensures Join([w] + ws) == w + " " + Join(ws)
  {
  }

  /** A word followed by nothing or by whitespace is read as one whole word. */
  lemma WholeWord(w: string, tail: string)
    requires IsToken(w) && (tail == [] || IsSpace(tail[0]))
    ensures Split(w + tail) == [w] + Split(tail)
  {
    WordLenOfWord(w);
    WordLenAppend(w, tail);
    assert (w + tail)[0] == w[0];
    SplitFirstWord(w + tail);
    AppendSlices(w, tail, |w|);
  }

  /** Splitting words joined by single spaces gives the words back. */
  lemma {:induction false} SplitJoin(ws: seq<string>)
    requires forall k :: 0 <= k < |ws| ==> IsToken(ws[k])
    ensures Split(Join(ws)) == ws
    decreases |ws|
  {
    if |ws| == 0 {
      assert Split("") == [];
    } else {
      var w := ws[0];
      var tail := if |ws| == 1 then "" else " " + Join(ws[1..]);
      assert Join(ws) == w + tail;
      WholeWord(w, tail);
      if |ws| > 1 {
        SplitSpacePrefix(" ", Join(ws[1..]));
        SplitJoin(ws[1..]);
      }
      assert ws == [w] + ws[1..];
    }
  }
}
