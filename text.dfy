/**
 * The pieces of Python's `str` that the layout code leans on: `split()`,
 * `split(sep)`, `count`, `replace(c, '')`, `strip`, `'\n'.join`,
 * `splitlines`, `lower`, slicing, `index`, `str(int)`, `int(str)` and
 * `isdigit`, each stated on `seq<char>`.
 */
module Text {
  import opened Outcomes

  /**
   * Python's `str.isspace` on the ASCII range: tab, line feed, vertical tab,
   * form feed, carriage return, the four information separators and space.
   */
  predicate IsSpace(c: char) {
    ('\t' <= c <= '\r') || ('\U{1C}' <= c <= ' ')
  }

  predicate SpaceFree(s: string) {
    forall i :: 0 <= i < |s| ==> !IsSpace(s[i])
  }

  /** `s.count(c)` for a one-character `c`. */
  function Count(s: string, c: char): (n: nat)
    ensures n <= |s|
    ensures n == 0 <==> c !in s
  {
    if s == [] then 0
    else
      assert s == [s[0]] + s[1..];
      (if s[0] == c then 1 else 0) + Count(s[1..], c)
  }

  lemma {:induction false} CountAppend(a: string, b: string, c: char)
    ensures Count(a + b, c) == Count(a, c) + Count(b, c)
  {
    if a == [] {
      assert a + b == b;
    } else {
      assert (a + b)[1..] == a[1..] + b;
      CountAppend(a[1..], b, c);
    }
  }

  /** `s.replace(c, '')`. */
  function Remove(s: string, c: char): (r: string)
    ensures c !in r
    ensures |r| == |s| - Count(s, c)
    ensures c !in s ==> r == s
  {
    if s == [] then []
    else
      assert s == [s[0]] + s[1..];
      (if s[0] == c then [] else [s[0]]) + Remove(s[1..], c)
  }

  /** Removing a character adds no character and no whitespace. */
  lemma {:induction false} RemoveKeeps(s: string, c: char)
    ensures forall d :: d in Remove(s, c) ==> d in s
    ensures SpaceFree(s) ==> SpaceFree(Remove(s, c))
  {
    if s != [] {
      RemoveKeeps(s[1..], c);
    }
  }

  lemma {:induction false} RemoveAppend(a: string, b: string, c: char)
    ensures Remove(a + b, c) == Remove(a, c) + Remove(b, c)
  {
    if a == [] {
      assert a + b == b;
    } else {
      assert (a + b)[1..] == a[1..] + b;
      RemoveAppend(a[1..], b, c);
    }
  }

  /** `s.split(c)` for a one-character separator: always `count + 1` pieces. */
  function SplitOn(s: string, c: char): (parts: seq<string>)
    ensures |parts| == Count(s, c) + 1
    ensures forall i :: 0 <= i < |parts| ==> c !in parts[i]
  {
    if s == [] then [""]
    else
      var rest := SplitOn(s[1..], c);
      if s[0] == c then [""] + rest else [[s[0]] + rest[0]] + rest[1..]
  }

  /** Splitting at a separator that follows a separator-free prefix. */
  lemma {:induction false} SplitOnAfter(a: string, c: char, b: string)
    requires c !in a
    ensures SplitOn(a + [c] + b, c) == [a] + SplitOn(b, c)
  {
    if a == [] {
      assert a + [c] + b == [c] + b;
      assert ([c] + b)[1..] == b;
    } else {
      var rest := a[1..] + [c] + b;
      SplitOnAfter(a[1..], c, b);
      assert a + [c] + b == [a[0]] + rest;
      SplitOnCons(a[0], rest, c);
      var r := SplitOn(rest, c);
      assert r[0] == a[1..] && r[1..] == SplitOn(b, c);
      assert [a[0]] + a[1..] == a;
    }
  }

  /** A character other than the separator joins the first piece. */
  lemma SplitOnCons(x: char, s: string, c: char)
    requires x != c
    ensures SplitOn([x] + s, c) == [[x] + SplitOn(s, c)[0]] + SplitOn(s, c)[1..]
  {
    assert ([x] + s)[1..] == s;
  }

  lemma {:induction false} SplitOnNone(a: string, c: char)
    requires c !in a
    ensures SplitOn(a, c) == [a]
  {
    if a != [] {
      SplitOnNone(a[1..], c);
      assert [a[0]] + a[1..] == a;
    }
  }

  /** Splitting adds no character: a character absent from `s` is absent from every piece. */
  lemma {:induction false} SplitOnAbsent(s: string, c: char, d: char)
    requires d !in s
    ensures forall i :: 0 <= i < |SplitOn(s, c)| ==> d !in SplitOn(s, c)[i]
  {
    if s != [] {
      SplitOnAbsent(s[1..], c, d);
      assert s == [s[0]] + s[1..];
    }
  }

  /** A word with one separator in it, and the space appended to it, splits in two. */
  lemma SplitOnce(a: string, c: char, b: string)
    requires c !in a && c !in b && c != ' '
    ensures SplitOn(a + [c] + b + " ", c) == [a, b + " "]
  {
    assert a + [c] + b + " " == a + [c] + (b + " ");
    SplitOnAfter(a, c, b + " ");
    SplitOnNone(b + " ", c);
  }

  /** A word with two separators in it, and the space appended to it, splits in three. */
  lemma SplitTwice(a: string, c: char, b: string, d: string)
    requires c !in a && c !in b && c !in d && c != ' '
    ensures SplitOn(a + [c] + b + [c] + d + " ", c) == [a, b, d + " "]
  {
    assert a + [c] + b + [c] + d + " " == a + [c] + (b + [c] + d + " ");
    SplitOnAfter(a, c, b + [c] + d + " ");
    SplitOnce(b, c, d);
  }

  /** A non-empty sequence is its front followed by its last element. */
  lemma FrontLast<T>(xs: seq<T>)
    requires xs != []
    ensures xs == xs[..|xs| - 1] + [xs[|xs| - 1]]
  {
  }

  lemma ConcatAssoc<T>(a: seq<T>, b: seq<T>, c: seq<T>)
    ensures (a + b) + c == a + (b + c)
  {
  }

  // ---------------------------------------------------------------- split()

  /** Length of the leading run of non-space characters. */
  function RunLength(s: string): (n: nat)
    ensures n <= |s|
    ensures forall i :: 0 <= i < n ==> !IsSpace(s[i])
    ensures n < |s| ==> IsSpace(s[n])
  {
    if s == [] || IsSpace(s[0]) then 0 else 1 + RunLength(s[1..])
  }

  /** `s.split()`: the maximal runs of non-space characters, in order. */
  function Words(s: string): (ws: seq<string>)
    decreases |s|
  {
    if s == [] then []
    else if IsSpace(s[0]) then Words(s[1..])
    else
      var n := RunLength(s);
      [s[..n]] + Words(s[n..])
  }

  /** Every word of `s.split()` is non-empty and holds no whitespace. */
  lemma {:induction false} WordsAreTokens(s: string)
    ensures forall i :: 0 <= i < |Words(s)| ==> Words(s)[i] != "" && SpaceFree(Words(s)[i])
    decreases |s|
  {
    if s != [] {
      if IsSpace(s[0]) {
        WordsAreTokens(s[1..]);
      } else {
        WordsAreTokens(s[RunLength(s)..]);
      }
    }
  }

  /** A character absent from `s` is absent from every word of it. */
  lemma {:induction false} WordsAbsent(s: string, d: char)
    requires d !in s
    ensures forall i :: 0 <= i < |Words(s)| ==> d !in Words(s)[i]
    decreases |s|
  {
    if s != [] {
      if IsSpace(s[0]) {
        assert d !in s[1..];
        WordsAbsent(s[1..], d);
      } else {
        var n := RunLength(s);
        assert d !in s[..n] && d !in s[n..];
        WordsAbsent(s[n..], d);
      }
    }
  }

  lemma RunLengthToken(w: string)
    requires SpaceFree(w)
    ensures RunLength(w) == |w|
  {
  }

  lemma WordsOfToken(w: string)
    requires w != "" && SpaceFree(w)
    ensures Words(w) == [w]
  {
    RunLengthToken(w);
    assert w[..|w|] == w && w[|w|..] == [];
  }

  lemma {:induction false} RunLengthBefore(a: string, c: char, b: string)
    requires IsSpace(c)
    ensures RunLength(a + [c] + b) == RunLength(a)
  {
    if a == [] {
      assert (a + [c] + b)[0] == c;
    } else {
      var s := a + [c] + b;
      assert s[0] == a[0] && s[1..] == a[1..] + [c] + b;
      RunLengthBefore(a[1..], c, b);
    }
  }

  /** A space character separates the words on its two sides. */
  lemma {:induction false} WordsSplitAtSpace(a: string, c: char, b: string)
    requires IsSpace(c)
    ensures Words(a + [c] + b) == Words(a) + Words(b)
    decreases |a|
  {
    var s := a + [c] + b;
    if a == [] {
      assert s[0] == c && s[1..] == b;
    } else if IsSpace(a[0]) {
      assert s[0] == a[0] && s[1..] == a[1..] + [c] + b;
      WordsSplitAtSpace(a[1..], c, b);
    } else {
      var n := RunLength(s);
      RunLengthBefore(a, c, b);
      assert s[0] == a[0];
      assert Words(s) == [s[..n]] + Words(s[n..]);
      assert Words(a) == [a[..n]] + Words(a[n..]);
      assert s[..n] == a[..n];
      assert s[n..] == a[n..] + [c] + b;
      WordsSplitAtSpace(a[n..], c, b);
    }
  }

  // ---------------------------------------------------------------- strip()

  function TrimLeft(s: string): (r: string)
    ensures r == [] || !IsSpace(r[0])
  {
    if s != [] && IsSpace(s[0]) then TrimLeft(s[1..]) else s
  }

  function TrimRight(s: string): (r: string)
    ensures r == [] || !IsSpace(r[|r| - 1])
  {
    if s != [] && IsSpace(s[|s| - 1]) then TrimRight(s[..|s| - 1]) else s
  }

  /** `s.strip()`. */
  function Strip(s: string): string {
    TrimRight(TrimLeft(s))
  }

  lemma {:induction false} WordsTrimLeft(s: string)
    ensures Words(TrimLeft(s)) == Words(s)
  {
    if s != [] && IsSpace(s[0]) {
      WordsTrimLeft(s[1..]);
    }
  }

  lemma {:induction false} WordsTrimRight(s: string)
    ensures Words(TrimRight(s)) == Words(s)
  {
    if s != [] && IsSpace(s[|s| - 1]) {
      var t := s[..|s| - 1];
      WordsTrimRight(t);
      WordsSplitAtSpace(t, s[|s| - 1], []);
      assert t + [s[|s| - 1]] + [] == s;
    }
  }

  lemma WordsStrip(s: string)
    ensures Words(Strip(s)) == Words(s)
  {
    WordsTrimLeft(s);
    WordsTrimRight(TrimLeft(s));
  }

  /** `f'{line} {word}'.strip()` has the words of `line` followed by `word`. */
  lemma WordsOfJoined(line: string, word: string)
    requires word != "" && SpaceFree(word)
    ensures Words(Strip(line + " " + word)) == Words(line) + [word]
  {
    WordsStrip(line + " " + word);
    WordsSplitAtSpace(line, ' ', word);
    WordsOfToken(word);
  }

  /** A joined line holds a space exactly when the line it extends is non-empty. */
  lemma StripJoined(line: string, word: string)
    requires word != "" && SpaceFree(word)
    requires line == [] || (!IsSpace(line[0]) && !IsSpace(line[|line| - 1]))
    ensures Strip(line + " " + word) == if line == [] then word else line + " " + word
  {
    var s := line + " " + word;
    assert !IsSpace(word[0]) && !IsSpace(word[|word| - 1]);
    if line == [] {
      assert s[0] == ' ' && s[1..] == word;
      assert TrimLeft(s) == TrimLeft(word) == word;
      assert TrimRight(word) == word;
    } else {
      assert s[0] == line[0];
      assert TrimLeft(s) == s;
      assert s[|s| - 1] == word[|word| - 1];
      assert TrimRight(s) == s;
    }
  }

  // ------------------------------------------------------ lines of a string

  /** `'\n'.join(ls)`. */
  function JoinLines(ls: seq<string>): string {
    if ls == [] then ""
    else if |ls| == 1 then ls[0]
    else JoinLines(ls[..|ls| - 1]) + "\n" + ls[|ls| - 1]
  }

  /**
   * `s.splitlines()` with `'\n'` as the only line boundary: no lines for
   * the empty string, and a final boundary does not open an empty line.
   */
  function SplitLines(s: string): seq<string> {
    if s == "" then []
    else
      var parts := SplitOn(s, '\n');
      if parts[|parts| - 1] == "" then parts[..|parts| - 1] else parts
  }

  // -------------------------------------------------------- lower, replace

  /** `str.lower()` on one character; only ASCII letters change. */
  function LowerChar(c: char): char {
    if 'A' <= c <= 'Z' then (c as int + 32) as char else c
  }

  function Lower(s: string): (r: string)
    ensures |r| == |s|
    ensures forall i :: 0 <= i < |s| ==> r[i] == LowerChar(s[i])
  {
    seq(|s|, i requires 0 <= i < |s| => LowerChar(s[i]))
  }

  /** `s.replace('\n', ' ')`. */
  function Flatten(s: string): (r: string)
    ensures |r| == |s|
    ensures forall i :: 0 <= i < |s| ==> r[i] == if s[i] == '\n' then ' ' else s[i]
  {
    seq(|s|, i requires 0 <= i < |s| => if s[i] == '\n' then ' ' else s[i])
  }

  /** Python's `s[i:j]` for non-negative bounds, which clamps instead of failing. */
  function Slice(s: string, i: nat, j: nat): (r: string)
    ensures i <= j <= |s| ==> r == s[i..j]
    ensures |r| <= |s|
  {
    var lo := if i < |s| then i else |s|;
    var hi := if j < lo then lo else if j < |s| then j else |s|;
    s[lo..hi]
  }

  // ------------------------------------------------------------ str.index

  predicate MatchAt(h: string, n: string, i: nat) {
    i + |n| <= |h| && h[i..i + |n|] == n
  }

  function FindFrom(h: string, n: string, i: nat): (r: Option<nat>)
    ensures r.Some? ==> i <= r.value && MatchAt(h, n, r.value)
    ensures r.Some? ==> forall j :: i <= j < r.value ==> !MatchAt(h, n, j)
    ensures r.None? ==> forall j: nat :: i <= j ==> !MatchAt(h, n, j)
    decreases |h| - i
  {
    if i + |n| > |h| then None
    else if h[i..i + |n|] == n then Some(i)
    else FindFrom(h, n, i + 1)
  }

  /** `h.index(n)`: the first position where `n` occurs, or `None` for the `ValueError`. */
  function FindFirst(h: string, n: string): (r: Option<nat>)
    ensures r.Some? ==> MatchAt(h, n, r.value) && forall j :: 0 <= j < r.value ==> !MatchAt(h, n, j)
    ensures r.None? ==> forall j: nat :: !MatchAt(h, n, j)
  {
    FindFrom(h, n, 0)
  }

  // ----------------------------------------------------- str(int), int(str)

  function DigitChar(d: nat): char
    requires d < 10
  {
    ('0' as int + d) as char
  }

  predicate IsDigits(s: string) {
    |s| > 0 && forall i :: 0 <= i < |s| ==> '0' <= s[i] <= '9'
  }

  /** `str(n)` for a non-negative `n`. */
  function NatToString(n: nat): (s: string)
    ensures IsDigits(s)
  {
    if n < 10 then [DigitChar(n)] else NatToString(n / 10) + [DigitChar(n % 10)]
  }

  /** `int(s)` for a string of ASCII digits (leading zeros allowed). */
  function ParseNat(s: string): nat
    requires forall i :: 0 <= i < |s| ==> '0' <= s[i] <= '9'
  {
    if s == [] then 0 else ParseNat(s[..|s| - 1]) * 10 + (s[|s| - 1] as int - '0' as int)
  }

  /** `int(str(n)) == n`. */
  lemma {:induction false} ParseNatToString(n: nat)
    ensures ParseNat(NatToString(n)) == n
  {
    if n >= 10 {
      var s := NatToString(n);
      assert s[..|s| - 1] == NatToString(n / 10);
      ParseNatToString(n / 10);
    }
  }

  lemma NatToStringInjective(m: nat, n: nat)
    requires NatToString(m) == NatToString(n)
    ensures m == n
  {
    ParseNatToString(m);
    ParseNatToString(n);
  }
}
