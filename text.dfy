/** The .NET string primitives the scraper relies on, over `string` = `seq<char>`. */
module Text {

  /** `char.IsWhiteSpace`. The same set is matched by `\s` in a .NET regular
      expression: the controls U+0009..U+000D and U+0085, and every character of
      the Unicode separator categories Zs, Zl and Zp. */
  predicate IsWhiteSpace(c: char) {
    || ('\t' <= c <= '\r') || c == ' ' || c == '\U{85}' || c == '\U{A0}' || c == '\U{1680}'
    || ('\U{2000}' <= c <= '\U{200A}') || c == '\U{2028}' || c == '\U{2029}'
    || c == '\U{202F}' || c == '\U{205F}' || c == '\U{3000}'
  }

  /** `string.IsNullOrWhiteSpace` on a non-null string: every character is white space. */
  predicate IsBlank(s: string) {
    forall i :: 0 <= i < |s| ==> IsWhiteSpace(s[i])
  }

  /** Every character of `s` at an index in [a, b) is white space. */
  ghost predicate BlankBetween(s: string, a: int, b: int)
    requires 0 <= a <= b <= |s|
  {
    forall k :: a <= k < b ==> IsWhiteSpace(s[k])
  }

  /** The first index at or after `i` whose character is not white space
      (`|s|` when there is none). */
  function SkipBlank(s: string, i: nat): (a: nat)
    requires i <= |s|
    ensures i <= a <= |s| && BlankBetween(s, i, a)
    ensures a < |s| ==> !IsWhiteSpace(s[a])
    decreases |s| - i
  {
    if i < |s| && IsWhiteSpace(s[i]) then SkipBlank(s, i + 1) else i
  }

  /** The end of s[a..j] once its trailing white space is cut off. */
  function BackBlank(s: string, a: nat, j: nat): (b: nat)
    requires a <= j <= |s|
    ensures a <= b <= j && BlankBetween(s, b, j)
    ensures a < b ==> !IsWhiteSpace(s[b - 1])
    decreases j
  {
    if a < j && IsWhiteSpace(s[j - 1]) then BackBlank(s, a, j - 1) else j
  }

  /** s[a..b] is what remains of `s` once its leading and trailing white space is cut off. */
  ghost predicate TrimmedAt(s: string, a: int, b: int) {
    && 0 <= a <= b <= |s| && BlankBetween(s, 0, a) && BlankBetween(s, b, |s|)
    && (a < b ==> !IsWhiteSpace(s[a]) && !IsWhiteSpace(s[b - 1]))
  }

  /** `r` is `s` with its leading and trailing white space removed, as `string.Trim` does. */
  ghost predicate IsTrimOf(r: string, s: string) {
    exists a, b :: TrimmedAt(s, a, b) && r == s[a..b]
  }

  /** `string.Trim()`. */
  function Trim(s: string): (r: string)
    ensures IsTrimOf(r, s)
  {
    var a := SkipBlank(s, 0);
    var b := BackBlank(s, a, |s|);
    assert TrimmedAt(s, a, b);
    s[a..b]
  }

  /** `TrimmedAt` pins the cut down: a string has exactly one trim. */
  lemma TrimmedAtUnique(s: string, a1: int, b1: int, a2: int, b2: int)
    requires TrimmedAt(s, a1, b1) && TrimmedAt(s, a2, b2)
    ensures b1 - a1 == b2 - a2 && (a1 < b1 ==> a1 == a2)
  {
  }

  /** Any two trims of the same string agree. */
  lemma TrimUnique(r1: string, r2: string, s: string)
    requires IsTrimOf(r1, s) && IsTrimOf(r2, s)
    ensures r1 == r2
  {
    var a1, b1 :| TrimmedAt(s, a1, b1) && r1 == s[a1..b1];
    var a2, b2 :| TrimmedAt(s, a2, b2) && r2 == s[a2..b2];
    TrimmedAtUnique(s, a1, b1, a2, b2);
  }

  /** Trimming twice changes nothing more than trimming once. */
  lemma TrimIdempotent(s: string)
    ensures Trim(Trim(s)) == Trim(s)
  {
    var r := Trim(s);
    var a, b :| TrimmedAt(s, a, b) && r == s[a..b];
    assert TrimmedAt(r, 0, |r|);
    assert IsTrimOf(r, r) by { assert r == r[0..|r|]; }
    TrimUnique(Trim(r), r, r);
  }

  /** `s.Contains(t)`: ordinal (case-sensitive) substring search. */
  predicate Contains(s: string, t: string)
    decreases |s|
  {
    |t| <= |s| && (s[..|t|] == t || (s != [] && Contains(s[1..], t)))
  }

  /** `t` occurs in `s` starting at index `i`. */
  ghost predicate OccursAt(s: string, t: string, i: int) {
    0 <= i <= |s| - |t| && s[i..i + |t|] == t
  }

  lemma {:induction false} ContainsMeansOccurs(s: string, t: string)
    ensures Contains(s, t) <==> exists i :: OccursAt(s, t, i)
    decreases |s|
  {
    if |t| <= |s| && s[..|t|] == t {
      assert OccursAt(s, t, 0);
    } else if |t| <= |s| && s != [] {
      ContainsMeansOccurs(s[1..], t);
      if Contains(s[1..], t) {
        var i :| OccursAt(s[1..], t, i);
        assert s[i + 1..i + 1 + |t|] == s[1..][i..i + |t|];
        assert OccursAt(s, t, i + 1);
      }
      if exists i :: OccursAt(s, t, i) {
        var i :| OccursAt(s, t, i);
        assert i != 0;
        assert s[1..][i - 1..i - 1 + |t|] == s[i..i + |t|];
        assert OccursAt(s[1..], t, i - 1);
      }
    }
  }

  /** A string contains every string that occurs in it between two others. */
  lemma ContainsMiddle(a: string, t: string, b: string)
    ensures Contains(a + t + b, t)
  {
    var s := a + t + b;
    assert s[|a|..|a| + |t|] == t;
    assert OccursAt(s, t, |a|);
    ContainsMeansOccurs(s, t);
  }

  /** Text in front keeps an occurrence. */
  lemma {:induction false} ContainsAfterPrefix(a: string, s: string, t: string)
    requires Contains(s, t)
    ensures Contains(a + s, t)
    decreases |a|
  {
    if a != [] {
      assert (a + s)[1..] == a[1..] + s;
      ContainsAfterPrefix(a[1..], s, t);
    } else {
      assert a + s == s;
    }
  }

  /** Text behind keeps an occurrence. */
  lemma {:induction false} ContainsBeforeSuffix(s: string, b: string, t: string)
    requires Contains(s, t)
    ensures Contains(s + b, t)
    decreases |s|
  {
    if s[..|t|] == t {
      assert (s + b)[..|t|] == t;
    } else {
      assert (s + b)[1..] == s[1..] + b;
      ContainsBeforeSuffix(s[1..], b, t);
    }
  }

  /** `s.Split(sep)`: the pieces between separators, empty pieces kept; never an empty list. */
  function Split(s: string, sep: char): (parts: seq<string>)
    ensures |parts| >= 1
    ensures forall k :: 0 <= k < |parts| ==> sep !in parts[k]
    decreases |s|
  {
    if s == [] then [[]]
    else
      var rest := Split(s[1..], sep);
      if s[0] == sep then [[]] + rest else [[s[0]] + rest[0]] + rest[1..]
  }

  /** `string.Join(sep, parts)`: the pieces with one separator between each two. */
  function Join(parts: seq<string>, sep: char): string
    requires |parts| >= 1
    decreases |parts|
  {
    if |parts| == 1 then parts[0] else parts[0] + [sep] + Join(parts[1..], sep)
  }

  /** Splitting loses nothing: joining the pieces with the separator gives the text back. */
  lemma {:induction false} JoinSplit(s: string, sep: char)
    ensures Join(Split(s, sep), sep) == s
    decreases |s|
  {
    if s != [] {
      JoinSplit(s[1..], sep);
      var rest := Split(s[1..], sep);
      if s[0] != sep && |rest| > 1 {
        assert Split(s, sep)[1..] == rest[1..];
      }
    }
  }

  /** Splitting is the inverse of joining pieces that do not contain the separator. */
  lemma {:induction false} SplitJoin(parts: seq<string>, sep: char)
    requires |parts| >= 1
    requires forall k :: 0 <= k < |parts| ==> sep !in parts[k]
    ensures Split(Join(parts, sep), sep) == parts
    decreases |parts|
  {
    var p := parts[0];
    if |parts| == 1 {
      SplitPiece(p, [], sep);
      assert p + [] == p;
      assert Split([], sep) == [[]];
    } else {
      SplitJoin(parts[1..], sep);
      var j := Join(parts[1..], sep);
      assert Join(parts, sep) == p + ([sep] + j);
      SplitPiece(p, [sep] + j, sep);
      assert ([sep] + j)[1..] == j;
      assert Split([sep] + j, sep) == [[]] + parts[1..];
      assert p + [] == p;
      assert [p] + parts[1..] == parts;
    }
  }

  /** Splitting `p + t`, where `p` holds no separator, glues `p` onto the first piece of `t`. */
  lemma {:induction false} SplitPiece(p: string, t: string, sep: char)
    requires sep !in p
    ensures Split(p + t, sep) == [p + Split(t, sep)[0]] + Split(t, sep)[1..]
    decreases |p|
  {
    var st := Split(t, sep);
    if p == [] {
      assert p + t == t;
      assert [] + st[0] == st[0];
      assert [st[0]] + st[1..] == st;
    } else {
      SplitPiece(p[1..], t, sep);
      assert (p + t)[1..] == p[1..] + t;
      assert (p + t)[0] == p[0] && p[0] != sep;
      var rest := Split(p[1..] + t, sep);
      assert rest[0] == p[1..] + st[0] && rest[1..] == st[1..];
      assert [p[0]] + (p[1..] + st[0]) == p + st[0];
    }
  }
}
