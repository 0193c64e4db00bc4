/**
 * The JavaScript string operations the page relies on: `trim`, `split`,
 * `substring`, `toLowerCase` and `includes`, over `seq<char>`.
 */
module Text {

  /** The characters `String.prototype.trim` removes: the ECMAScript
      WhiteSpace and LineTerminator code points. */
  predicate IsWs(c: char) {
    || ('\t' <= c <= '\r')
    || c == ' ' || c == '\U{00A0}' || c == '\U{1680}'
    || ('\U{2000}' <= c <= '\U{200A}')
    || c == '\U{2028}' || c == '\U{2029}' || c == '\U{202F}' || c == '\U{205F}'
    || c == '\U{3000}' || c == '\U{FEFF}'
  }

  predicate AllWs(s: string) {
    forall i :: 0 <= i < |s| ==> IsWs(s[i])
  }

  /** Neither end of `s` is whitespace. */
  predicate IsTrimmed(s: string) {
    s == [] || (!IsWs(s[0]) && !IsWs(s[|s| - 1]))
  }

  /** The first index at or after `i` that does not hold whitespace, or `|s|`. */
  function SkipWsForward(s: string, i: nat): (n: nat)
    requires i <= |s|
    ensures i <= n <= |s|
    ensures forall k :: i <= k < n ==> IsWs(s[k])
    ensures n < |s| ==> !IsWs(s[n])
    decreases |s| - i
  {
    if i < |s| && IsWs(s[i]) then SkipWsForward(s, i + 1) else i
  }

  /** The end of the last non-whitespace character before `j`, or 0. */
  function SkipWsBackward(s: string, j: nat): (n: nat)
    requires j <= |s|
    ensures n <= j
    ensures forall k :: n <= k < j ==> IsWs(s[k])
    ensures n > 0 ==> !IsWs(s[n - 1])
  {
    if j > 0 && IsWs(s[j - 1]) then SkipWsBackward(s, j - 1) else j
  }

  /** Where the trimmed text starts and ends. */
  function TrimStartIndex(s: string): nat
    ensures TrimStartIndex(s) <= |s|
  {
    SkipWsForward(s, 0)
  }

  function TrimEndIndex(s: string): nat
    ensures TrimEndIndex(s) <= |s|
  {
    SkipWsBackward(s, |s|)
  }

  /** `s` is whitespace up to `a`, then `r`, then whitespace to the end. */
  predicate SurroundedAt(r: string, s: string, a: int) {
    && 0 <= a && a + |r| <= |s|
    && AllWs(s[..a]) && s[a..a + |r|] == r && AllWs(s[a + |r|..])
  }

  /** `r` is what trimming `s` must give: `s` with only whitespace around
      `r`, and `r` itself neither starting nor ending with whitespace. */
  predicate IsTrimOf(r: string, s: string) {
    IsTrimmed(r) && exists a | 0 <= a <= |s| :: SurroundedAt(r, s, a)
  }

  /** `s.trim()`. */
  function Trim(s: string): (r: string)
    ensures IsTrimmed(r) && SurroundedAt(r, s, TrimStartIndex(s))
    ensures |r| <= |s|
    ensures r == [] <==> AllWs(s)
    ensures IsTrimmed(s) ==> r == s
    ensures OccursAt(s, r, TrimStartIndex(s))
  {
    var a := TrimStartIndex(s);
    var b := TrimEndIndex(s);
    TrimBounds(s);
    var r := if b <= a then [] else s[a..b];
    assert SurroundedAt(r, s, a) by {
      assert forall k :: 0 <= k < a ==> s[..a][k] == s[k];
      var e := a + |r|;
      assert forall k :: e <= k < |s| ==> s[e..][k - e] == s[k];
    }
    r
  }

  /** Trimming is determined by its specification: any trimmed string
      surrounded in `s` by whitespace alone is `Trim(s)`. */
  lemma TrimOfIsTrim(r: string, s: string)
    requires IsTrimOf(r, s)
    ensures r == Trim(s)
  {
    var a :| 0 <= a <= |s| && SurroundedAt(r, s, a);
    assert a + |r| <= |s|;
    var lo := TrimStartIndex(s);
    var hi := TrimEndIndex(s);
    TrimBounds(s);
    if r == [] {
      assert forall k :: 0 <= k < a ==> s[..a][k] == s[k];
      assert forall k :: a <= k < |s| ==> s[a..][k - a] == s[k];
      assert AllWs(s);
    } else {
      assert s[a] == r[0] && s[a + |r| - 1] == r[|r| - 1];
      assert forall k :: 0 <= k < a ==> s[..a][k] == s[k];
      assert forall k :: a + |r| <= k < |s| ==> s[a + |r|..][k - a - |r|] == s[k];
      assert lo == a;
      assert hi == a + |r|;
    }
  }

  /** Either everything is whitespace and both indices meet at the ends,
      or the start index lies before the end index. */
  lemma TrimBounds(s: string)
    ensures var a := TrimStartIndex(s);
            var b := TrimEndIndex(s);
            && (AllWs(s) ==> a == |s| && b == 0)
            && (!AllWs(s) ==> a < b && !IsWs(s[a]) && !IsWs(s[b - 1]))
            && (IsTrimmed(s) ==> a == 0 && b == |s|)
  {
  }

  /** Trimming a string that ends in one extra space gives back the
      trimmed string in front of it. */
  lemma TrimDropsTrailingSpace(s: string)
    requires s != [] && IsTrimmed(s)
    ensures Trim(s + " ") == s
  {
    var t := s + " ";
    assert t[0] == s[0] && t[|s| - 1] == s[|s| - 1] && t[|s|] == ' ';
    assert SkipWsForward(t, 0) == 0;
    assert SkipWsBackward(t, |t|) == SkipWsBackward(t, |s|) == |s|;
    assert t[0..|s|] == s;
  }

  /** A trimmed, non-empty piece occurring in a string survives trimming
      of that string. */
  lemma TrimKeepsInfix(s: string, m: string, j: int)
    requires m != [] && IsTrimmed(m)
    requires OccursAt(s, m, j)
    ensures Contains(Trim(s), m)
  {
    var a := TrimStartIndex(s);
    var b := TrimEndIndex(s);
    assert s[j] == m[0];
    assert s[j + |m| - 1] == m[|m| - 1];
    assert a <= j;
    assert j + |m| <= b;
    TrimBounds(s);
    SubSlice(s, a, b, j - a, j - a + |m|);
    assert OccursAt(Trim(s), m, j - a);
  }

  /** A character absent from `s` is absent from its trim. */
  lemma TrimKeepsAbsent(s: string, c: char)
    requires c !in s
    ensures c !in Trim(s)
  {
  }

  lemma SubSlice(s: string, a: int, b: int, lo: int, hi: int)
    requires 0 <= a <= b <= |s| && 0 <= lo <= hi <= b - a
    ensures s[a..b][lo..hi] == s[a + lo..a + hi]
  {
    var x := s[a..b][lo..hi];
    var y := s[a + lo..a + hi];
    assert |x| == |y|;
    forall i | 0 <= i < |x| ensures x[i] == y[i] {
      assert x[i] == s[a..b][lo + i] == s[a + lo + i];
    }
  }

  /** `t` occurs in `s` starting at index `k`. */
  predicate OccursAt(s: string, t: string, k: int) {
    0 <= k && k + |t| <= |s| && s[k..k + |t|] == t
  }

  lemma OccursBetween(a: string, t: string, b: string)
    ensures OccursAt(a + t + b, t, |a|)
  {
    assert (a + t + b)[|a|..|a| + |t|] == t;
  }

  /** `s.includes(t)`. */
  predicate Contains(s: string, t: string) {
    exists k | 0 <= k <= |s| - |t| :: OccursAt(s, t, k)
  }

  lemma ContainsEmpty(s: string)
    ensures Contains(s, "")
  {
    assert OccursAt(s, "", 0);
  }

  /** Index of the first `c` in `s` at or after `i`, or `|s|` when there
      is none. */
  function IndexFrom(s: string, c: char, i: nat): (n: nat)
    requires i <= |s|
    ensures i <= n <= |s|
    ensures forall k :: i <= k < n ==> s[k] != c
    ensures n < |s| ==> s[n] == c
    decreases |s| - i
  {
    if i == |s| || s[i] == c then i else IndexFrom(s, c, i + 1)
  }

  /** The pieces of `s[start..]` between separators. */
  function SplitFrom(s: string, sep: char, start: nat): (parts: seq<string>)
    requires start <= |s|
    ensures |parts| >= 1
    ensures forall k :: 0 <= k < |parts| ==> sep !in parts[k]
    decreases |s| - start
  {
    var j := IndexFrom(s, sep, start);
    if j == |s| then [s[start..]] else [s[start..j]] + SplitFrom(s, sep, j + 1)
  }

  /** `s.split(sep)` for a one-character separator: the maximal pieces
      between separators, always at least one. */
  function Split(s: string, sep: char): (parts: seq<string>)
    ensures |parts| >= 1
    ensures forall k :: 0 <= k < |parts| ==> sep !in parts[k]
  {
    SplitFrom(s, sep, 0)
  }

  /** `parts.join(sep)`. */
  function Join(parts: seq<string>, sep: char): string
  {
    if |parts| == 0 then ""
    else if |parts| == 1 then parts[0]
    else parts[0] + [sep] + Join(parts[1..], sep)
  }

  /** Splitting loses nothing: joining the pieces back gives the input. */
  lemma JoinSplit(s: string, sep: char)
    ensures Join(Split(s, sep), sep) == s
  {
    JoinSplitFrom(s, sep, 0);
  }

  lemma {:induction false} JoinSplitFrom(s: string, sep: char, start: nat)
    requires start <= |s|
    ensures Join(SplitFrom(s, sep, start), sep) == s[start..]
    decreases |s| - start
  {
    var j := IndexFrom(s, sep, start);
    if j < |s| {
      var head := s[start..j];
      var rest := SplitFrom(s, sep, j + 1);
      assert SplitFrom(s, sep, start) == [head] + rest;
      JoinSplitFrom(s, sep, j + 1);
      assert Join(rest, sep) == s[j + 1..];
      JoinCons(head, rest, sep);
      SplitAround(s, start, j);
      assert s[j] == sep;
    } else {
      assert SplitFrom(s, sep, start) == [s[start..]];
    }
  }

  lemma JoinCons(head: string, rest: seq<string>, sep: char)
    requires |rest| >= 1
    ensures Join([head] + rest, sep) == head + [sep] + Join(rest, sep)
  {
    assert ([head] + rest)[1..] == rest;
  }

  lemma SplitAround(s: string, start: nat, j: nat)
    requires start <= j < |s|
    ensures s[start..] == s[start..j] + [s[j]] + s[j + 1..]
  {
  }

  /** `s.split(sep)[0]`: everything before the first separator. */
  function FirstSegment(s: string, sep: char): (r: string)
    ensures |r| <= |s| && r == s[..|r|]
    ensures sep !in r
    ensures |r| < |s| ==> s[|r|] == sep
  {
    Split(s, sep)[0]
  }

  /** `s.split(sep).pop()`: everything after the last separator. */
  function LastSegment(s: string, sep: char): (r: string)
    ensures |r| <= |s| && r == s[|s| - |r|..]
    ensures sep !in r
    ensures |r| < |s| ==> s[|s| - |r| - 1] == sep
  {
    var parts := Split(s, sep);
    LastPieceIsSuffix(s, sep, 0);
    parts[|parts| - 1]
  }

  /** The last piece of `s[start..]` is a suffix of `s` that starts right
      after a separator, or at `start` itself. */
  lemma {:induction false} LastPieceIsSuffix(s: string, sep: char, start: nat)
    requires start <= |s|
    ensures var parts := SplitFrom(s, sep, start);
            var r := parts[|parts| - 1];
            && start + |r| <= |s| && r == s[|s| - |r|..]
            && (start + |r| < |s| ==> s[|s| - |r| - 1] == sep)
    decreases |s| - start
  {
    var j := IndexFrom(s, sep, start);
    if j < |s| {
      var rest := SplitFrom(s, sep, j + 1);
      LastPieceIsSuffix(s, sep, j + 1);
      var parts := [s[start..j]] + rest;
      assert SplitFrom(s, sep, start) == parts;
      var r := rest[|rest| - 1];
      assert parts[|parts| - 1] == r;
      if j + 1 + |r| == |s| {
        assert s[|s| - |r| - 1] == s[j] == sep;
      }
    } else {
      assert SplitFrom(s, sep, start) == [s[start..]];
    }
  }

  /** `s.substring(0, n)`: the first `n` characters, or all of a shorter `s`. */
  function Take(s: string, n: nat): (r: string)
    ensures |r| == if |s| < n then |s| else n
    ensures r == s[..|r|]
  {
    if |s| <= n then s else s[..n]
  }

  /** `toLowerCase` on one character, restricted to the ASCII letters. */
  function LowerChar(c: char): (r: char)
    ensures 'A' <= c <= 'Z' ==> r as int == c as int + 32
    ensures !('A' <= c <= 'Z') ==> r == c
  {
    if 'A' <= c <= 'Z' then (c as int + 32) as char else c
  }

  /** `s.toLowerCase()`. */
  function Lower(s: string): (r: string)
    ensures |r| == |s|
    ensures forall i :: 0 <= i < |s| ==> r[i] == LowerChar(s[i])
  {
    seq(|s|, i requires 0 <= i < |s| => LowerChar(s[i]))
  }
}
