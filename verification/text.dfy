/** Optional values and thrown exceptions, standing in for JavaScript's `null` results and `throw`. */
module Wrappers {
  datatype Option<+T> = None | Some(value: T)

  /** The result of a JavaScript computation that may throw an `Error` with a message. */
  datatype Outcome<+T> = Returned(value: T) | Thrown(message: string)

  /** `xs.map(f)` for a callback that may throw: the first exception ends the whole call. */
  function MapOutcome<A, B>(f: A -> Outcome<B>, xs: seq<A>): (r: Outcome<seq<B>>)
    ensures r.Returned? ==> |r.value| == |xs|
    decreases |xs|
  {
    if xs == [] then Returned([])
    else
      match f(xs[0])
      case Thrown(m) => Thrown(m)
      case Returned(y) =>
        match MapOutcome(f, xs[1..])
        case Thrown(m) => Thrown(m)
        case Returned(ys) => Returned([y] + ys)
  }

  /** The map throws exactly when the callback throws on some element, and otherwise holds each callback result in order. */
  lemma {:induction false} MapOutcomeSpec<A, B>(f: A -> Outcome<B>, xs: seq<A>)
    ensures MapOutcome(f, xs).Thrown? <==> exists i :: 0 <= i < |xs| && f(xs[i]).Thrown?
    ensures MapOutcome(f, xs).Returned? ==> forall i :: 0 <= i < |xs| ==> f(xs[i]) == Returned(MapOutcome(f, xs).value[i])
    decreases |xs|
  {
    if xs != [] {
      MapOutcomeSpec(f, xs[1..]);
      assert forall i :: 1 <= i < |xs| ==> xs[i] == xs[1..][i - 1];
    }
  }

  /** Mapping a concatenation maps each part in turn, and throws when either part does. */
  lemma {:induction false} MapOutcomeAppend<A, B>(f: A -> Outcome<B>, a: seq<A>, b: seq<A>)
    ensures MapOutcome(f, a + b).Returned? <==> MapOutcome(f, a).Returned? && MapOutcome(f, b).Returned?
    ensures MapOutcome(f, a + b).Returned? ==> MapOutcome(f, a + b).value == MapOutcome(f, a).value + MapOutcome(f, b).value
    decreases |a|
  {
    if a == [] {
      assert a + b == b;
    } else {
      assert (a + b)[0] == a[0];
      assert (a + b)[1..] == a[1..] + b;
      MapOutcomeAppend(f, a[1..], b);
    }
  }
}

/**
  String primitives with JavaScript semantics, on strings as `seq<char>`:
  the `\s` class (which is also the set `String.prototype.trim` removes),
  the ASCII `\w` class, ASCII case mapping, `indexOf` / `includes`,
  non-overlapping global match counts, `substring`, `split` and `join`.
 */
module Text {

  /** JavaScript WhiteSpace and LineTerminator code points: the `\s` class. */
  predicate IsSpace(c: char) {
    || c == ' ' || c == '\t' || c == '\n' || c == '\U{000B}' || c == '\U{000C}' || c == '\r'
    || c == '\U{00A0}' || c == '\U{1680}' || ('\U{2000}' <= c <= '\U{200A}')
    || c == '\U{2028}' || c == '\U{2029}' || c == '\U{202F}' || c == '\U{205F}'
    || c == '\U{3000}' || c == '\U{FEFF}'
  }

  /** The characters a regular-expression `.` does not match. */
  predicate IsLineTerminator(c: char) {
    c == '\n' || c == '\r' || c == '\U{2028}' || c == '\U{2029}'
  }

  /** The `\w` class: ASCII letters, digits and underscore. */
  predicate IsWordChar(c: char) {
    ('a' <= c <= 'z') || ('A' <= c <= 'Z') || ('0' <= c <= '9') || c == '_'
  }

  predicate IsDigit(c: char) {
    '0' <= c <= '9'
  }

  predicate AllSpace(s: string) {
    forall i :: 0 <= i < |s| ==> IsSpace(s[i])
  }

  /** Neither end of `s` is whitespace. */
  predicate IsTrimmed(s: string) {
    s == [] || (!IsSpace(s[0]) && !IsSpace(s[|s| - 1]))
  }

  /** ASCII lower-casing of one character. */
  function LowerChar(c: char): (r: char)
    ensures !('A' <= r <= 'Z')
    ensures IsSpace(r) == IsSpace(c) && IsWordChar(r) == IsWordChar(c)
  {
    if 'A' <= c <= 'Z' then (c as int + 32) as char else c
  }

  /** `toLowerCase()` on ASCII text. */
  function Lower(s: string): (r: string)
    ensures |r| == |s|
    ensures forall i :: 0 <= i < |s| ==> r[i] == LowerChar(s[i])
  {
    seq(|s|, i requires 0 <= i < |s| => LowerChar(s[i]))
  }

  lemma LowerIdempotent(s: string)
    ensures Lower(Lower(s)) == Lower(s)
  {
  }

  lemma LowerAppend(a: string, b: string)
    ensures Lower(a + b) == Lower(a) + Lower(b)
  {
  }

  // ---------------------------------------------------------------------
  // trim

  /** First index at or after `i` whose character is not whitespace (or `|s|`). */
  function SkipSpaces(s: string, i: nat): (r: nat)
    requires i <= |s|
    ensures i <= r <= |s|
    ensures forall k :: i <= k < r ==> IsSpace(s[k])
    ensures r == |s| || !IsSpace(s[r])
    decreases |s| - i
  {
    if i < |s| && IsSpace(s[i]) then SkipSpaces(s, i + 1) else i
  }

  /** Smallest index `r <= j` such that `s[r..j]` is all whitespace. */
  function SkipSpacesBack(s: string, j: nat): (r: nat)
    requires j <= |s|
    ensures r <= j
    ensures forall k :: r <= k < j ==> IsSpace(s[k])
    ensures r == 0 || !IsSpace(s[r - 1])
  {
    if j > 0 && IsSpace(s[j - 1]) then SkipSpacesBack(s, j - 1) else j
  }

  /** `String.prototype.trim`. */
  function Trim(s: string): (r: string)
    ensures IsTrimmed(r)
    ensures |r| <= |s|
    ensures r == [] <==> AllSpace(s)
  {
    var a := SkipSpaces(s, 0);
    var b := SkipSpacesBack(s, |s|);
    if a < b then s[a..b] else []
  }

  /** `String.prototype.trimStart`. */
  function TrimStart(s: string): (r: string)
    ensures r == [] || !IsSpace(r[0])
  {
    s[SkipSpaces(s, 0)..]
  }

  lemma TrimOfTrimmed(s: string)
    requires IsTrimmed(s)
    ensures Trim(s) == s
  {
    if s != [] {
      assert SkipSpaces(s, 0) == 0;
      assert SkipSpacesBack(s, |s|) == |s|;
    }
  }

  lemma TrimIdempotent(s: string)
    ensures Trim(Trim(s)) == Trim(s)
  {
    TrimOfTrimmed(Trim(s));
  }

  /** Trim keeps a text whose ends are not whitespace and discards surrounding whitespace. */
  lemma TrimSurrounded(a: string, m: string, b: string)
    requires AllSpace(a) && AllSpace(b) && IsTrimmed(m) && m != []
    ensures Trim(a + m + b) == m
  {
    var s := a + m + b;
    SkipSpacesExact(s, |a|);
    SkipSpacesBackExact(s, |a| + |m|);
    assert s[|a|..|a| + |m|] == m;
  }

  lemma SkipSpacesExact(s: string, n: nat)
    requires n < |s| && !IsSpace(s[n]) && forall k :: 0 <= k < n ==> IsSpace(s[k])
    ensures SkipSpaces(s, 0) == n
  {
    var r := SkipSpaces(s, 0);
    assert r <= n;
  }

  lemma SkipSpacesBackExact(s: string, n: nat)
    requires 0 < n <= |s| && !IsSpace(s[n - 1]) && forall k :: n <= k < |s| ==> IsSpace(s[k])
    ensures SkipSpacesBack(s, |s|) == n
  {
    var r := SkipSpacesBack(s, |s|);
    assert r >= n;
  }

  /** Trim never grows a text more than it was before extra trailing whitespace was added. */
  lemma TrimAppendSpaces(x: string, w: string)
    requires AllSpace(w)
    ensures |Trim(x + w)| <= |x|
    ensures Trim(x + w) == Trim(x)
  {
    var s := x + w;
    if AllSpace(x) {
      assert AllSpace(s);
    } else {
      var a := SkipSpaces(x, 0);
      var b := SkipSpacesBack(x, |x|);
      assert a < b;
      SkipSpacesExact(s, a);
      SkipSpacesBackExact(s, b);
      assert s[a..b] == x[a..b];
    }
  }

  /** Trimming a text that ends in a whitespace-free run only trims the text's front. */
  lemma TrimBeforeTrimmed(x: string, p: string)
    requires p != [] && IsTrimmed(p)
    ensures Trim(x + p) == TrimStart(x) + p
  {
    var s := x + p;
    SkipSpacesBackExact(s, |s|);
    var a := SkipSpaces(x, 0);
    if a < |x| {
      SkipSpacesExact(s, a);
      assert s[a..] == x[a..] + p;
    } else {
      assert s[|x|] == p[0];
      SkipSpacesExact(s, |x|);
      assert s[|x|..] == p;
    }
  }

  /** The trimmed text is the slice of `s` between a whitespace prefix and a whitespace suffix. */
  lemma TrimSlice(s: string) returns (a: nat, b: nat)
    ensures a <= b <= |s| && Trim(s) == s[a..b]
    ensures forall k :: 0 <= k < a ==> IsSpace(s[k])
    ensures forall k :: b <= k < |s| ==> IsSpace(s[k])
  {
    a := SkipSpaces(s, 0);
    b := SkipSpacesBack(s, |s|);
    if a >= b {
      a, b := 0, 0;
    }
  }

  // ---------------------------------------------------------------------
  // searching

  /** `t` occurs in `s` starting at index `i`. */
  predicate IsAt(s: string, t: string, i: int) {
    0 <= i && i + |t| <= |s| && s[i..i + |t|] == t
  }

  /** `s.indexOf(t, from)`: the first occurrence at or after `from`, else -1. */
  function IndexOfFrom(s: string, t: string, from: nat): (r: int)
    ensures r == -1 || (from <= r && IsAt(s, t, r))
    ensures forall i :: from <= i && (r == -1 || i < r) ==> !IsAt(s, t, i)
    decreases |s| + 1 - from
  {
    if from + |t| > |s| then -1
    else if s[from..from + |t|] == t then from
    else IndexOfFrom(s, t, from + 1)
  }

  /** `s.indexOf(t)`. */
  function IndexOf(s: string, t: string): (r: int)
    ensures r == -1 || IsAt(s, t, r)
    ensures forall i :: 0 <= i && (r == -1 || i < r) ==> !IsAt(s, t, i)
  {
    IndexOfFrom(s, t, 0)
  }

  /** `s.includes(t)`. */
  predicate Contains(s: string, t: string) {
    IndexOf(s, t) != -1
  }

  lemma ContainsIff(s: string, t: string)
    ensures Contains(s, t) <==> exists i :: IsAt(s, t, i)
  {
    if exists i :: IsAt(s, t, i) {
      var i :| IsAt(s, t, i);
      assert IndexOf(s, t) != -1;
    }
  }

  lemma ContainsAt(s: string, t: string, i: int)
    requires IsAt(s, t, i)
    ensures Contains(s, t)
  {
  }

  /** Trimming does not change whether a text occurs, when the text neither starts nor ends with whitespace. */
  lemma ContainsTrim(s: string, t: string)
    requires t != [] && !IsSpace(t[0]) && !IsSpace(t[|t| - 1])
    ensures Contains(Trim(s), t) <==> Contains(s, t)
  {
    var a, b := TrimSlice(s);
    if Contains(s, t) {
      ContainsInSlice(s, t, a, b);
    }
    if Contains(s[a..b], t) {
      ContainsOfSlice(s, t, a, b);
    }
  }

  lemma ContainsOfSlice(s: string, t: string, a: nat, b: nat)
    requires a <= b <= |s| && Contains(s[a..b], t)
    ensures Contains(s, t)
  {
    var r := s[a..b];
    var j := IndexOf(r, t);
    SliceOfSlice(s, a, b, j, j + |t|);
    ContainsAt(s, t, a + j);
  }

  lemma SliceOfSlice(s: string, a: nat, b: nat, i: nat, j: nat)
    requires a <= b <= |s| && i <= j <= b - a
    ensures s[a..b][i..j] == s[a + i..a + j]
  {
    assert forall k :: 0 <= k < j - i ==> s[a..b][i..j][k] == s[a + i + k];
  }

  /** An occurrence of such a text lies inside the non-whitespace slice. */
  lemma ContainsInSlice(s: string, t: string, a: nat, b: nat)
    requires t != [] && !IsSpace(t[0]) && !IsSpace(t[|t| - 1]) && Contains(s, t)
    requires a <= b <= |s|
    requires forall k :: 0 <= k < a ==> IsSpace(s[k])
    requires forall k :: b <= k < |s| ==> IsSpace(s[k])
    ensures Contains(s[a..b], t)
  {
    var i := IndexOf(s, t);
    var e := i + |t| - 1;
    assert s[i] == t[0] && s[e] == t[|t| - 1] by {
      assert s[i..i + |t|] == t;
      assert s[i..i + |t|][0] == s[i];
      assert s[i..i + |t|][|t| - 1] == s[e];
    }
    assert a <= i;
    assert e < b;
    SliceOfSlice(s, a, b, i - a, i - a + |t|);
    ContainsAt(s[a..b], t, i - a);
  }

  /** `s.startsWith(t)`. */
  predicate StartsWith(s: string, t: string) {
    |t| <= |s| && s[..|t|] == t
  }

  /** `s.endsWith(t)`. */
  predicate EndsWith(s: string, t: string) {
    |t| <= |s| && s[|s| - |t|..] == t
  }

  /** `s.match(new RegExp(t, 'g')).length` for a pattern made of literal characters:
      the number of non-overlapping occurrences, scanning left to right from `from`. */
  function CountFrom(s: string, t: string, from: nat): (n: nat)
    requires t != []
    ensures n > 0 <==> IndexOfFrom(s, t, from) != -1
    decreases |s| + 1 - from
  {
    var j := IndexOfFrom(s, t, from);
    if j == -1 then 0 else 1 + CountFrom(s, t, j + |t|)
  }

  /** Match count of a literal pattern; the empty pattern matches at every position. */
  function CountOccurrences(s: string, t: string): (n: nat)
    ensures n > 0 <==> Contains(s, t)
  {
    if t == [] then |s| + 1 else CountFrom(s, t, 0)
  }

  /** `s.substring(0, n)`. */
  function Prefix(s: string, n: nat): (r: string)
    ensures |r| <= n && |r| <= |s|
    ensures r == s[..|r|]
    ensures |s| <= n ==> r == s
  {
    if n < |s| then s[..n] else s
  }

  lemma PrefixContains(s: string, n: nat, t: string)
    requires Contains(Prefix(s, n), t)
    ensures Contains(s, t)
  {
    var p := Prefix(s, n);
    var i := IndexOf(p, t);
    assert p[i..i + |t|] == s[i..i + |t|];
    ContainsAt(s, t, i);
  }

  /** `s.replace(pat, rep)` with a string pattern: only the first occurrence is replaced. */
  function ReplaceFirst(s: string, pat: string, rep: string): (r: string)
    ensures !Contains(s, pat) ==> r == s
  {
    var i := IndexOf(s, pat);
    if i == -1 then s else s[..i] + rep + s[i + |pat|..]
  }

  // ---------------------------------------------------------------------
  // numbers as text

  function DigitChar(d: nat): (c: char)
    requires d < 10
    ensures IsDigit(c)
  {
    ('0' as int + d) as char
  }

  /** Decimal text of a natural number (`String(n)`). */
  function NatToString(n: nat): (r: string)
    ensures |r| > 0
    ensures forall i :: 0 <= i < |r| ==> IsDigit(r[i])
    decreases n
  {
    if n < 10 then [DigitChar(n)] else NatToString(n / 10) + [DigitChar(n % 10)]
  }

  /** Decimal text of an integer (`String(i)`). */
  function IntToString(i: int): string {
    if i < 0 then "-" + NatToString(-i) else NatToString(i)
  }

  /** The greedy `\n+`: the first index at or after `i` that is not a newline. */
  function SkipNewlines(s: string, i: nat): (e: nat)
    requires i <= |s|
    ensures i <= e <= |s| && (e == |s| || s[e] != '\n')
    ensures forall k :: i <= k < e ==> s[k] == '\n'
    decreases |s| - i
  {
    if i < |s| && s[i] == '\n' then SkipNewlines(s, i + 1) else i
  }

  // ---------------------------------------------------------------------
  // split and join

  /** `s.split(c)` for a one-character separator. */
  function Split(s: string, c: char): (r: seq<string>)
    ensures |r| > 0
    decreases |s|
  {
    var i := IndexOf(s, [c]);
    if i == -1 then [s] else [s[..i]] + Split(s[i + 1..], c)
  }

  /** `parts.join(sep)`. */
  function Join(parts: seq<string>, sep: string): string
    decreases |parts|
  {
    if parts == [] then []
    else if |parts| == 1 then parts[0]
    else parts[0] + sep + Join(parts[1..], sep)
  }

  /** A tail of a tail is a tail. */
  lemma EndsWithTrans(s: string, t: string, r: string)
    requires EndsWith(s, t) && EndsWith(t, r)
    ensures EndsWith(s, r)
  {
    assert t[|t| - |r|..] == s[|s| - |r|..];
  }

  /** Trimming a tail of a trimmed text leaves a tail of it. */
  lemma TrimOfTail(t: string, c: string)
    requires IsTrimmed(t) && EndsWith(t, c)
    ensures EndsWith(t, Trim(c))
  {
    var a, b := TrimSlice(c);
    if c != [] {
      assert c[|c| - 1] == t[|t| - 1];
      assert b == |c|;
    }
    assert t[|t| - |c[a..]|..] == c[a..];
  }

  /** Trimming a text that starts with a non-whitespace character keeps that character first. */
  lemma TrimHead(s: string)
    requires s != [] && !IsSpace(s[0])
    ensures Trim(s) != [] && Trim(s)[0] == s[0]
  {
    var a, b := TrimSlice(s);
    assert a == 0;
    assert !AllSpace(s);
  }

  /** Joining the first `n` pieces of a split gives back a prefix of the text. */
  lemma {:induction false} JoinSplitPrefix(s: string, c: char, n: nat)
    requires n <= |Split(s, c)|
    ensures StartsWith(s, Join(Split(s, c)[..n], [c]))
    decreases |s|
  {
    var parts := Split(s, c);
    if n == 1 {
      assert parts[..1] == [parts[0]];
      SplitHead(s, c);
    } else if n > 1 {
      var i := SplitCons(s, c);
      var head, tail := s[..i], s[i + 1..];
      var rest := Split(tail, c);
      JoinSplitPrefix(tail, c, n - 1);
      JoinTakeCons(head, rest, n - 1, [c]);
      StartsWithPrepend(head + [c], tail, Join(rest[..n - 1], [c]));
    }
  }

  /** Text without the separator character has no occurrence of it. */
  lemma NoSeparatorIndex(s: string, c: char)
    ensures c !in s ==> IndexOf(s, [c]) == -1
  {
    var r := IndexOf(s, [c]);
    if r != -1 {
      assert s[r..r + 1] == [c];
      assert s[r] == c;
    }
  }

  /** In separator-free text followed by the separator, the first occurrence is that separator. */
  lemma SeparatorAfterFree(p: string, c: char, t: string)
    ensures c !in p ==> IndexOf((p + [c]) + t, [c]) == |p|
  {
    var s := (p + [c]) + t;
    assert s[|p|..|p| + 1] == [c];
    assert IsAt(s, [c], |p|);
    var r := IndexOf(s, [c]);
    if r != -1 && r < |p| {
      assert s[r..r + 1] == [c];
      assert p[r] == s[r] == c;
    }
  }

  /** Text before the first separator holds no separator. */
  lemma FreeBefore(s: string, c: char, i: int)
    requires 0 <= i <= |s|
    requires forall k :: 0 <= k < i ==> !IsAt(s, [c], k)
    ensures c !in s[..i]
  {
    forall k | 0 <= k < i ensures s[..i][k] != c {
      assert s[k..k + 1] == [s[k]];
      assert !IsAt(s, [c], k);
    }
  }

  /** The pieces of a split never contain the separator. */
  lemma {:induction false} SplitPiecesFree(s: string, c: char)
    ensures forall j :: 0 <= j < |Split(s, c)| ==> c !in Split(s, c)[j]
    decreases |s|
  {
    var i := IndexOf(s, [c]);
    if i == -1 {
      FreeBefore(s, c, |s|);
      assert s[..|s|] == s;
      assert Split(s, c) == [s];
    } else {
      FreeBefore(s, c, i);
      SplitPiecesFree(s[i + 1..], c);
      var rest := Split(s[i + 1..], c);
      var pieces := Split(s, c);
      assert pieces == [s[..i]] + rest;
      forall j | 0 <= j < |pieces| ensures c !in pieces[j] {
        if j > 0 {
          assert pieces[j] == rest[j - 1];
        }
      }
    }
  }

  /** Splitting separator-free text, the separator and more text: that text, then the split of the rest. */
  lemma SplitAfterFree(p: string, c: char, t: string)
    requires c !in p
    ensures Split((p + [c]) + t, c) == [p] + Split(t, c)
  {
    var s := (p + [c]) + t;
    SeparatorAfterFree(p, c, t);
    assert s[..|p|] == p && s[|p| + 1..] == t;
  }

  /** Splitting a join of separator-free pieces gives the pieces back. */
  lemma {:induction false} SplitJoin(parts: seq<string>, c: char)
    requires |parts| > 0
    requires forall j :: 0 <= j < |parts| ==> c !in parts[j]
    ensures Split(Join(parts, [c]), c) == parts
    decreases |parts|
  {
    if |parts| == 1 {
      NoSeparatorIndex(parts[0], c);
    } else {
      var tail := parts[1..];
      JoinCons(parts, [c]);
      SplitAfterFree(parts[0], c, Join(tail, [c]));
      assert forall j :: 0 <= j < |tail| ==> c !in tail[j];
      SplitJoin(tail, c);
      assert parts == [parts[0]] + tail;
    }
  }

  /** Joining the first `m + 1` of `[a] + xs` is `a`, the separator, and the join of the first `m` of `xs`. */
  lemma JoinTakeCons(a: string, xs: seq<string>, m: nat, sep: string)
    requires 0 < m <= |xs|
    ensures Join(([a] + xs)[..m + 1], sep) == (a + sep) + Join(xs[..m], sep)
  {
    var ys := ([a] + xs)[..m + 1];
    assert ys[0] == a && ys[1..] == xs[..m];
    JoinCons(ys, sep);
  }

  /** The first piece of a split is a prefix of the text. */
  lemma SplitHead(s: string, c: char)
    ensures StartsWith(s, Split(s, c)[0])
  {
    var i := IndexOf(s, [c]);
    if i != -1 {
      assert Split(s, c)[0] == s[..i];
    }
  }

  /** A split into more than one piece: the text up to the first separator, then the split of the rest. */
  lemma SplitCons(s: string, c: char) returns (i: nat)
    requires |Split(s, c)| > 1
    ensures i < |s| && s == (s[..i] + [c]) + s[i + 1..]
    ensures Split(s, c) == [s[..i]] + Split(s[i + 1..], c)
  {
    var k := IndexOf(s, [c]);
    assert k != -1;
    i := k;
    assert s[i..i + 1] == [c];
    assert s == s[..i] + s[i..i + 1] + s[i + 1..];
  }

  lemma JoinCons(parts: seq<string>, sep: string)
    requires |parts| > 1
    ensures Join(parts, sep) == (parts[0] + sep) + Join(parts[1..], sep)
  {
  }

  lemma StartsWithPrepend(x: string, y: string, z: string)
    requires StartsWith(y, z)
    ensures StartsWith(x + y, x + z)
  {
    assert (x + y)[..|x + z|] == x + y[..|z|];
  }

  /** Concatenation of a list of texts. */
  function Concat(parts: seq<string>): string
    decreases |parts|
  {
    if parts == [] then [] else parts[0] + Concat(parts[1..])
  }
}
