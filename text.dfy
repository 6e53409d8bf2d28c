/** Python string operations the tools rely on, over `string` (= `seq<char>`):
    `str.strip()`, `str.split()` with and without a separator, `str.index`,
    `startswith`, `endswith` and `''.join(...)`. */
module Text {

  /** The characters Python's `str.isspace()` accepts; `strip()` and `split()` use the same set. */
  predicate IsSpace(c: char) {
    c == ' ' || '\t' <= c <= '\r' || '\U{1C}' <= c <= '\U{1F}' || c == '\U{85}' || c == '\U{A0}'
    || c == '\U{1680}' || '\U{2000}' <= c <= '\U{200A}' || c == '\U{2028}' || c == '\U{2029}'
    || c == '\U{202F}' || c == '\U{205F}' || c == '\U{3000}'
  }

  /** ASCII decimal digit. */
  predicate IsDigit(c: char) {
    '0' <= c <= '9'
  }

  /** The number the decimal digits of `b` spell, other characters (the underscores `int()`
      allows between digits) ignored. */
  function DigitsValue(b: string): nat {
    if b == [] then 0
    else if IsDigit(b[|b| - 1]) then 10 * DigitsValue(b[..|b| - 1]) + (b[|b| - 1] - '0') as int
    else DigitsValue(b[..|b| - 1])
  }

  predicate NoSpace(s: string) {
    forall i :: 0 <= i < |s| ==> !IsSpace(s[i])
  }

  predicate AllSpace(s: string) {
    forall i :: 0 <= i < |s| ==> IsSpace(s[i])
  }

  predicate StartsWith(s: string, prefix: string) {
    |prefix| <= |s| && s[..|prefix|] == prefix
  }

  predicate EndsWith(s: string, suffix: string) {
    |suffix| <= |s| && s[|s| - |suffix|..] == suffix
  }

  predicate IsPrefix(r: string, s: string) {
    |r| <= |s| && r == s[..|r|]
  }

  predicate IsSuffix(r: string, s: string) {
    |r| <= |s| && r == s[|s| - |r|..]
  }

  /** No part contains `c`. */
  predicate Avoids(parts: seq<string>, c: char) {
    forall k :: 0 <= k < |parts| ==> c !in parts[k]
  }

  /** The first `n` characters of `s` are whitespace. */
  predicate SpaceBefore(s: string, n: int) {
    forall i :: 0 <= i < n && i < |s| ==> IsSpace(s[i])
  }

  /** The characters of `s` from position `n` on are whitespace. */
  predicate SpaceFrom(s: string, n: int) {
    forall i :: 0 <= n <= i < |s| ==> IsSpace(s[i])
  }

  /** `s.lstrip()`: the suffix of `s` left after dropping leading whitespace. */
  function TrimLeft(s: string): (r: string)
    ensures |r| <= |s| && IsSuffix(r, s)
    ensures r == [] || !IsSpace(r[0])
    ensures SpaceBefore(s, |s| - |r|)
  {
    if |s| > 0 && IsSpace(s[0]) then
      var r := TrimLeft(s[1..]);
      forall i | 1 <= i < |s| - |r| ensures IsSpace(s[i]) {
        assert s[i] == s[1..][i - 1];
      }
      r
    else s
  }

  /** `s.rstrip()`: the prefix of `s` left after dropping trailing whitespace. */
  function TrimRight(s: string): (r: string)
    ensures |r| <= |s| && IsPrefix(r, s)
    ensures r == [] || !IsSpace(r[|r| - 1])
    ensures SpaceFrom(s, |r|)
  {
    if |s| > 0 && IsSpace(s[|s| - 1]) then
      var r := TrimRight(s[..|s| - 1]);
      forall i | |r| <= i < |s| - 1 ensures IsSpace(s[i]) {
        assert s[i] == s[..|s| - 1][i];
      }
      r
    else s
  }

  /** `s.strip()`. */
  function Strip(s: string): string {
    TrimRight(TrimLeft(s))
  }

  /** The longest prefix of `s` without whitespace. */
  function Word(s: string): (w: string)
    ensures |w| <= |s| && IsPrefix(w, s)
    ensures NoSpace(w)
    ensures |w| == |s| || IsSpace(s[|w|])
  {
    if s == [] || IsSpace(s[0]) then [] else [s[0]] + Word(s[1..])
  }

  /** `s.split()`: the maximal runs of non-whitespace characters, in order. */
  function Split(s: string): seq<string>
    decreases |s|
  {
    var t := TrimLeft(s);
    if t == [] then [] else
      var w := Word(t);
      [w] + Split(t[|w|..])
  }

  /** Every part is a non-empty run without whitespace. */
  predicate Words(parts: seq<string>) {
    forall k :: 0 <= k < |parts| ==> parts[k] != [] && NoSpace(parts[k])
  }

  /** `s.index(c)`: position of the first `c`. */
  function IndexOf(s: string, c: char): (i: nat)
    requires c in s
    ensures i < |s| && s[i] == c && c !in s[..i]
  {
    if s[0] == c then 0 else
      assert c in s[1..];
      var i := 1 + IndexOf(s[1..], c);
      assert s[..i] == [s[0]] + s[1..][..i - 1];
      i
  }

  /** `s.split(c)`: the pieces between occurrences of `c`; never empty. */
  function SplitOn(s: string, c: char): (parts: seq<string>)
    ensures |parts| >= 1
    ensures Avoids(parts, c)
    decreases |s|
  {
    if c in s then
      var i := IndexOf(s, c);
      [s[..i]] + SplitOn(s[i + 1..], c)
    else [s]
  }

  /** `c.join(parts)` for a single-character separator. */
  function JoinOn(parts: seq<string>, c: char): string
    requires |parts| >= 1
  {
    if |parts| == 1 then parts[0] else parts[0] + [c] + JoinOn(parts[1..], c)
  }

  /** `''.join(parts)`. */
  function Concat(parts: seq<string>): string {
    if parts == [] then [] else parts[0] + Concat(parts[1..])
  }

  /** `", ".join(parts)`. */
  function JoinComma(parts: seq<string>): string {
    if parts == [] then []
    else if |parts| == 1 then parts[0]
    else parts[0] + ", " + JoinComma(parts[1..])
  }

  /** One group of one to three ASCII digits (`\d{1,3}`). */
  predicate IsDigitGroup(g: string) {
    1 <= |g| <= 3 && AllDigits(g)
  }

  predicate AllDigits(s: string) {
    forall i :: 0 <= i < |s| ==> IsDigit(s[i])
  }

  predicate DigitsAndDots(s: string) {
    forall i :: 0 <= i < |s| ==> IsDigit(s[i]) || s[i] == '.'
  }

  /** The shape `\d{1,3}\.\d{1,3}\.\d{1,3}\.\d{1,3}` matched against the whole string. */
  predicate IsDottedQuad(s: string) {
    var g := SplitOn(s, '.');
    |g| == 4 && IsDigitGroup(g[0]) && IsDigitGroup(g[1]) && IsDigitGroup(g[2]) && IsDigitGroup(g[3])
  }

  /** A hosts-file token that survives untouched through `strip`, comment removal and `split`. */
  predicate IsToken(s: string) {
    s != [] && NoSpace(s) && '#' !in s
  }

  // ---------------------------------------------------------------------------
  // Lemmas

  /** Splitting at `c` and joining with `c` gives back the string. */
  lemma {:induction false} JoinSplitOn(s: string, c: char)
    ensures JoinOn(SplitOn(s, c), c) == s
    decreases |s|
  {
    if c in s {
      var i := IndexOf(s, c);
      JoinSplitOn(s[i + 1..], c);
      assert s == s[..i] + [c] + s[i + 1..];
    }
  }

  lemma {:induction false} SplitOnCons(p: string, c: char, rest: string)
    requires c !in p
    ensures SplitOn(p + [c] + rest, c) == [p] + SplitOn(rest, c)
  {
    var s := p + [c] + rest;
    assert s[|p|] == c;
    assert s[..|p|] == p;
    var i := IndexOf(s, c);
    assert i == |p|;
    assert s[..i] == p && s[i + 1..] == rest;
  }

  /** The first `c` is at the only position that has a `c` and none before it. */
  lemma {:induction false} IndexOfUnique(s: string, c: char, i: nat)
    requires i < |s| && s[i] == c && c !in s[..i]
    ensures IndexOf(s, c) == i
  {
    var j := IndexOf(s, c);
    assert forall k :: 0 <= k < i ==> s[..i][k] == s[k];
    assert forall k :: 0 <= k < j ==> s[..j][k] == s[k];
  }

  /** Splitting at a separator between `s` and `t` splits each of them. */
  lemma {:induction false} SplitOnAppend(s: string, c: char, t: string)
    ensures SplitOn(s + [c] + t, c) == SplitOn(s, c) + SplitOn(t, c)
    decreases |s|
  {
    if c in s {
      var i := IndexOf(s, c);
      var u := s + [c] + t;
      assert u[..i] == s[..i];
      IndexOfUnique(u, c, i);
      assert u[i + 1..] == s[i + 1..] + [c] + t;
      SplitOnAppend(s[i + 1..], c, t);
    } else {
      SplitOnCons(s, c, t);
    }
  }

  /** Joining parts that avoid `c` with `c` and splitting at `c` gives back the parts. */
  lemma {:induction false} SplitJoinOn(parts: seq<string>, c: char)
    requires |parts| >= 1 && Avoids(parts, c)
    ensures SplitOn(JoinOn(parts, c), c) == parts
    decreases |parts|
  {
    if |parts| > 1 {
      assert Avoids(parts[1..], c) by {
        forall k | 0 <= k < |parts| - 1 ensures c !in parts[1..][k] {
          assert parts[1..][k] == parts[k + 1];
        }
      }
      assert c !in parts[0];
      SplitJoinOn(parts[1..], c);
      SplitOnCons(parts[0], c, JoinOn(parts[1..], c));
      assert parts == [parts[0]] + parts[1..];
    } else {
      assert c !in parts[0];
    }
  }

  lemma {:induction false} SplitOnAtom(p: string, c: char)
    requires c !in p
    ensures SplitOn(p, c) == [p]
  {
  }

  /** A dotted quad consists of digits and dots only, so it is a token. */
  lemma {:induction false} DottedQuadIsToken(s: string)
    requires IsDottedQuad(s)
    ensures IsToken(s) && IsDigit(s[0])
  {
    var g := SplitOn(s, '.');
    assert AllDigitParts(g);
    DotSeparatedDigits(s);
  }

  predicate AllDigitParts(parts: seq<string>) {
    forall k :: 0 <= k < |parts| ==> AllDigits(parts[k])
  }

  /** Conversely, any four groups of one to three digits joined by dots form a dotted quad:
      the shape is checked, the range of each number is not. */
  lemma {:induction false} DottedQuadOf(a: string, b: string, c: string, d: string)
    requires IsDigitGroup(a) && IsDigitGroup(b) && IsDigitGroup(c) && IsDigitGroup(d)
    ensures IsDottedQuad(a + ['.'] + b + ['.'] + c + ['.'] + d)
  {
    NoDotInDigits(a);
    NoDotInDigits(b);
    NoDotInDigits(c);
    NoDotInDigits(d);
    SplitFour(a, b, c, d);
    Regroup(a, b, c, d);
  }

  lemma {:induction false} SplitFour(a: string, b: string, c: string, d: string)
    requires '.' !in a && '.' !in b && '.' !in c && '.' !in d
    ensures SplitOn(a + ['.'] + (b + ['.'] + (c + ['.'] + d)), '.') == [a, b, c, d]
  {
    var cd := c + ['.'] + d;
    var bcd := b + ['.'] + cd;
    SplitOnAtom(d, '.');
    SplitOnCons(c, '.', d);
    SplitOnCons(b, '.', cd);
    SplitOnCons(a, '.', bcd);
  }

  lemma Regroup(a: string, b: string, c: string, d: string)
    ensures a + ['.'] + b + ['.'] + c + ['.'] + d == a + ['.'] + (b + ['.'] + (c + ['.'] + d))
  {
  }

  lemma {:induction false} NoDotInDigits(g: string)
    requires AllDigits(g)
    ensures '.' !in g
  {
    forall i | 0 <= i < |g| ensures g[i] != '.' {
      assert IsDigit(g[i]);
    }
  }

  /** A string whose pieces between dots are all digits consists of digits and dots. */
  lemma {:induction false} DotSeparatedDigits(s: string)
    requires AllDigitParts(SplitOn(s, '.'))
    ensures DigitsAndDots(s)
    decreases |s|
  {
    if '.' in s {
      var i := IndexOf(s, '.');
      var rest := s[i + 1..];
      UnconsDigitParts(s[..i], SplitOn(rest, '.'));
      DotSeparatedDigits(rest);
      DigitsAndDotsConcat(s[..i], ['.']);
      DigitsAndDotsConcat(s[..i] + ['.'], rest);
      assert s == s[..i] + ['.'] + rest;
    } else {
      assert SplitOn(s, '.')[0] == s;
    }
  }

  lemma {:induction false} UnconsDigitParts(p: string, ps: seq<string>)
    requires AllDigitParts([p] + ps)
    ensures AllDigits(p) && AllDigitParts(ps)
  {
    assert ([p] + ps)[0] == p;
    forall k | 0 <= k < |ps| ensures AllDigits(ps[k]) {
      assert ([p] + ps)[k + 1] == ps[k];
    }
  }

  lemma {:induction false} DigitsAndDotsConcat(a: string, b: string)
    requires DigitsAndDots(a) && DigitsAndDots(b)
    ensures DigitsAndDots(a + b)
  {
    forall i | |a| <= i < |a + b| ensures (a + b)[i] == b[i - |a|] {}
  }

  lemma {:induction false} TrimLeftNoop(s: string)
    requires s == [] || !IsSpace(s[0])
    ensures TrimLeft(s) == s
  {
  }

  lemma {:induction false} TrimLeftSpaces(sp: string, s: string)
    requires AllSpace(sp)
    ensures TrimLeft(sp + s) == TrimLeft(s)
    decreases |sp|
  {
    if sp != [] {
      assert (sp + s)[1..] == sp[1..] + s;
      TrimLeftSpaces(sp[1..], s);
    } else {
      assert sp + s == s;
    }
  }

  lemma {:induction false} TrimLeftAppend(s: string, t: string)
    requires TrimLeft(s) != []
    ensures TrimLeft(s + t) == TrimLeft(s) + t
    decreases |s|
  {
    if IsSpace(s[0]) {
      assert (s + t)[1..] == s[1..] + t;
      TrimLeftAppend(s[1..], t);
    }
  }

  lemma {:induction false} TrimLeftIdempotent(s: string)
    ensures TrimLeft(TrimLeft(s)) == TrimLeft(s)
  {
  }

  /** Dropping trailing whitespace of `a + b` either stops inside `b` or eats all of it. */
  lemma {:induction false} TrimRightAppend(a: string, b: string)
    ensures TrimRight(a + b) == if TrimRight(b) == [] then TrimRight(a) else a + TrimRight(b)
    decreases |b|
  {
    if b == [] {
      assert a + b == a;
    } else if IsSpace(b[|b| - 1]) {
      assert (a + b)[..|a + b| - 1] == a + b[..|b| - 1];
      TrimRightAppend(a, b[..|b| - 1]);
    }
  }

  lemma {:induction false} TrimRightKeepsHead(s: string)
    requires s != [] && !IsSpace(s[0])
    ensures TrimRight(s) != [] && TrimRight(s)[0] == s[0]
  {
  }

  lemma {:induction false} TrimRightNoop(s: string)
    requires s == [] || !IsSpace(s[|s| - 1])
    ensures TrimRight(s) == s
  {
  }

  /** A prefix without whitespace, followed by whitespace or nothing, is the word. */
  lemma {:induction false} WordOf(w: string, rest: string)
    requires NoSpace(w)
    requires rest == [] || IsSpace(rest[0])
    ensures Word(w + rest) == w
    decreases |w|
  {
    if w == [] {
      assert w + rest == rest;
    } else {
      assert (w + rest)[1..] == w[1..] + rest;
      WordOf(w[1..], rest);
    }
  }

  /** `split()` of a word followed by whitespace (or nothing) starts with that word. */
  lemma {:induction false} SplitWord(w: string, rest: string)
    requires w != [] && NoSpace(w)
    requires rest == [] || IsSpace(rest[0])
    ensures Split(w + rest) == [w] + Split(rest)
  {
    TrimLeftNoop(w + rest);
    WordOf(w, rest);
    assert (w + rest)[|w|..] == rest;
  }

  lemma {:induction false} SplitSpaces(sp: string, s: string)
    requires AllSpace(sp)
    ensures Split(sp + s) == Split(s)
  {
    TrimLeftSpaces(sp, s);
  }

  lemma {:induction false} SplitBlank(s: string)
    requires AllSpace(s)
    ensures Split(s) == []
  {
    TrimLeftSpaces(s, []);
    assert s + [] == s;
  }

  /** Stripping never introduces a character. */
  lemma {:induction false} StripAvoids(s: string, c: char)
    requires c !in s
    ensures c !in Strip(s) && c !in TrimLeft(s)
  {
  }

  lemma {:induction false} SplitWords(s: string)
    ensures Words(Split(s))
    decreases |s|
  {
    var t := TrimLeft(s);
    if t != [] {
      var w := Word(t);
      var rest := t[|w|..];
      SplitWords(rest);
      ConsWords(w, Split(rest));
    }
  }

  lemma {:induction false} ConsWords(w: string, ps: seq<string>)
    requires w != [] && NoSpace(w) && Words(ps)
    ensures Words([w] + ps)
  {
    forall k | 1 <= k < |ps| + 1 ensures ([w] + ps)[k] == ps[k - 1] {}
  }

  /** Splitting never introduces a character. */
  lemma {:induction false} SplitAvoids(s: string, c: char)
    requires c !in s
    ensures Avoids(Split(s), c)
    decreases |s|
  {
    var t := TrimLeft(s);
    if t != [] {
      var w := Word(t);
      var rest := t[|w|..];
      assert c !in w && c !in rest;
      SplitAvoids(rest, c);
      ConsAvoids(w, Split(rest), c);
    }
  }

  lemma {:induction false} ConsAvoids(w: string, ps: seq<string>, c: char)
    requires c !in w && Avoids(ps, c)
    ensures Avoids([w] + ps, c)
  {
    forall k | 0 <= k < |[w] + ps| ensures c !in ([w] + ps)[k] {
      if k > 0 {
        assert ([w] + ps)[k] == ps[k - 1];
      }
    }
  }

  /** A string whose stripped form is empty consists of whitespace only. */
  lemma {:induction false} StripEmpty(s: string)
    requires Strip(s) == []
    ensures AllSpace(s) && TrimLeft(s) == []
  {
  }

  /** Trailing whitespace, a line terminator included, does not change the stripped line. */
  lemma {:induction false} StripTrailingSpace(s: string, w: string)
    requires AllSpace(w)
    ensures Strip(s + w) == Strip(s)
  {
    var t := TrimLeft(s);
    if t != [] {
      TrimLeftAppend(s, w);
      TrimRightAppend(t, w);
    } else {
      assert AllSpace(s + w);
      TrimLeftSpaces(s + w, []);
      assert s + w + [] == s + w;
    }
  }
}
