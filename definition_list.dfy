/** The two regular expressions HandleSpecificCarRead.cs runs over the inner markup
    of a section's `<dl>`, written as hand-rolled matchers and proved against
    declarative descriptions of what .NET's `Regex.Match` and `Regex.Matches` find.

    A description names every position at which one part of the pattern ends:
    `\s*` is a run of white space (`SpaceRun`), `[^>]*` a run without `>`
    (`NoneOf`), `.` without `RegexOptions.Singleline` any character but `\n`, and
    a name is compared character by character, as `Regex.Escape` makes it. The
    match that `Regex.Match` reports is the leftmost one; at that start the
    backtracking order prefers the longest run for a greedy `\s*` whose length is
    not forced and the shortest group for the lazy `(.*?)`. */
module DefinitionList {
  import opened Wrappers
  import opened Text

  // ---------------------------------------------------------------------------
  // Building blocks

  /** The text `t` stands in `s` at index `k`, character by character. */
  predicate LitAt(s: string, k: int, t: string)
    decreases |t|
  {
    0 <= k && k + |t| <= |s| && (t == [] || (s[k] == t[0] && LitAt(s, k + 1, t[1..])))
  }

  /** `\s*` matches s[a..b]: every character of it is white space. */
  ghost predicate SpaceRun(s: string, a: int, b: int)
    decreases b - a
  {
    0 <= a <= b <= |s| && (a < b ==> IsWhiteSpace(s[a]) && SpaceRun(s, a + 1, b))
  }

  /** No character of s[a..b] is `c`: `[^>]*` for c = '>', a run of `.` for c = '\n'. */
  ghost predicate NoneOf(s: string, a: int, b: int, c: char)
    decreases b - a
  {
    0 <= a <= b <= |s| && (a < b ==> s[a] != c && NoneOf(s, a + 1, b, c))
  }

  /** A white-space run is one up to each of its inner positions too. */
  lemma {:induction false} SpaceRunPrefix(s: string, a: int, b: int, c: int)
    requires SpaceRun(s, a, b) && a <= c <= b
    ensures SpaceRun(s, a, c)
    decreases c - a
  {
    if a < c {
      SpaceRunPrefix(s, a + 1, b, c);
    }
  }

  lemma LitAtHead(s: string, k: int, t: string)
    requires LitAt(s, k, t) && |t| > 0
    ensures k < |s| && s[k] == t[0]
  {
  }

  /** Where a greedy `\s*` that starts at `k` stops. */
  function SkipSpace(s: string, k: nat): (r: nat)
    requires k <= |s|
    ensures k <= r <= |s| && SpaceRun(s, k, r) && (r < |s| ==> !IsWhiteSpace(s[r]))
    decreases |s| - k
  {
    if k < |s| && IsWhiteSpace(s[k]) then SkipSpace(s, k + 1) else k
  }

  /** A white-space run from `k` that is followed by a non-space character is the
      longest one: the greedy `\s*` has no other choice. */
  lemma {:induction false} SpaceRunForced(s: string, k: nat, q: int)
    requires k <= |s| && SpaceRun(s, k, q) && q < |s| && !IsWhiteSpace(s[q])
    ensures q == SkipSpace(s, k)
    decreases q - k
  {
    if k < q {
      SpaceRunForced(s, k + 1, q);
    }
  }

  /** Every white-space run from `k` ends at or before the longest one. */
  lemma {:induction false} SpaceRunBounded(s: string, k: nat, q: int)
    requires k <= |s| && SpaceRun(s, k, q)
    ensures q <= SkipSpace(s, k)
    decreases q - k
  {
    if k < q {
      SpaceRunBounded(s, k + 1, q);
    }
  }

  /** The first `c` at or after `k`, or |s| when there is none: where `[^c]*c` must put its `c`. */
  function FindChar(s: string, k: nat, c: char): (r: nat)
    requires k <= |s|
    ensures k <= r <= |s| && NoneOf(s, k, r, c) && (r < |s| ==> s[r] == c)
    decreases |s| - k
  {
    if k < |s| && s[k] != c then FindChar(s, k + 1, c) else k
  }

  lemma {:induction false} FindCharForced(s: string, k: nat, c: char, q: int)
    requires k <= |s| && NoneOf(s, k, q, c) && q < |s| && s[q] == c
    ensures q == FindChar(s, k, c)
    decreases q - k
  {
    if k < q {
      FindCharForced(s, k + 1, c, q);
    }
  }

  /** The lazy `(.*?)` followed by `close`, without Singleline: the first `close` at
      or after `k` that no `\n` comes before. */
  function LazyLineEnd(s: string, k: nat, close: string): (r: Option<nat>)
    requires k <= |s|
    ensures r.Some? ==> k <= r.value && NoneOf(s, k, r.value, '\n') && LitAt(s, r.value, close)
    decreases |s| - k
  {
    if LitAt(s, k, close) then Some(k)
    else if k == |s| || s[k] == '\n' then None
    else LazyLineEnd(s, k + 1, close)
  }

  /** `LazyLineEnd` finds the shortest group, and reports none only when there is none. */
  lemma {:induction false} LazyLineEndComplete(s: string, k: nat, close: string, j: int)
    requires k <= |s| && |close| > 0 && close[0] == '<'
    requires k <= j && NoneOf(s, k, j, '\n') && LitAt(s, j, close)
    ensures LazyLineEnd(s, k, close).Some? && LazyLineEnd(s, k, close).value <= j
    decreases |s| - k
  {
    if !LitAt(s, k, close) {
      assert k != j;
      assert s[k] != '\n';
      LazyLineEndComplete(s, k + 1, close, j);
    }
  }

  // ---------------------------------------------------------------------------
  // Basics and history: <dt>LABEL<\/dt>\s*<dd[^>]*>(.*?)<\/dd>

  /** The pattern matches from `i`: `\s*` ends at `w`, `[^>]*` ends at the `>` at
      `e`, and group 1 is s[e + 1..c1], which `</dd>` follows. */
  ghost predicate ValueMatch(s: string, name: string, i: int, w: int, e: int, c1: int) {
    && LitAt(s, i, "<dt>" + name + "</dt>")
    && SpaceRun(s, i + |name| + 9, w) && LitAt(s, w, "<dd")
    && NoneOf(s, w + 3, e, '>') && e < |s| && s[e] == '>'
    && NoneOf(s, e + 1, c1, '\n') && LitAt(s, c1, "</dd>")
  }

  /** The match `Regex.Match` reports: leftmost, and with the shortest group there. */
  ghost predicate FirstValueMatch(s: string, name: string, i: int, w: int, e: int, c1: int) {
    && ValueMatch(s, name, i, w, e, c1)
    && forall i', w', e', c1' :: ValueMatch(s, name, i', w', e', c1') ==> i < i' || (i == i' && c1 <= c1')
  }

  datatype ValueHit = ValueHit(start: nat, w: nat, e: nat, c1: nat)

  /** The pattern tried at `i` alone. */
  function ValueAt(s: string, name: string, i: nat): (r: Option<ValueHit>)
    requires i <= |s|
    ensures r.Some? ==> r.value.start == i && ValueMatch(s, name, i, r.value.w, r.value.e, r.value.c1)
  {
    var open := "<dt>" + name + "</dt>";
    if !LitAt(s, i, open) then None
    else
      var w := SkipSpace(s, i + |open|);
      if !LitAt(s, w, "<dd") then None
      else
        var e := FindChar(s, w + 3, '>');
        if e == |s| then None
        else
          match LazyLineEnd(s, e + 1, "</dd>")
          case None => None
          case Some(c1) => Some(ValueHit(i, w, e, c1))
  }

  /** Every match at `i` is found by `ValueAt`, and its group is no shorter. */
  lemma ValueAtComplete(s: string, name: string, i: nat, w: int, e: int, c1: int)
    requires i <= |s| && ValueMatch(s, name, i, w, e, c1)
    ensures ValueAt(s, name, i).Some? && ValueAt(s, name, i).value.c1 <= c1
  {
    var open := "<dt>" + name + "</dt>";
    assert SkipSpace(s, i + |open|) == w by {
      LitAtHead(s, w, "<dd");
      SpaceRunForced(s, i + |open|, w);
    }
    assert FindChar(s, w + 3, '>') == e by {
      FindCharForced(s, w + 3, '>', e);
    }
    LazyLineEndComplete(s, e + 1, "</dd>", c1);
  }

  /** `Regex.Match`: the leftmost match at or after `i`. */
  function FindValue(s: string, name: string, i: nat): (r: Option<ValueHit>)
    requires i <= |s|
    ensures r.Some? ==> i <= r.value.start && ValueMatch(s, name, r.value.start, r.value.w, r.value.e, r.value.c1)
    decreases |s| - i
  {
    match ValueAt(s, name, i)
    case Some(h) => Some(h)
    case None => if i == |s| then None else FindValue(s, name, i + 1)
  }

  /** `FindValue` misses no match and reports the one `Regex.Match` reports. */
  lemma {:induction false} FindValueComplete(s: string, name: string, i: nat, i': int, w: int, e: int, c1: int)
    requires i <= i' && ValueMatch(s, name, i', w, e, c1)
    ensures FindValue(s, name, i).Some?
    ensures var h := FindValue(s, name, i).value; h.start < i' || (h.start == i' && h.c1 <= c1)
    decreases |s| - i
  {
    assert i' <= |s|;
    if i == i' {
      ValueAtComplete(s, name, i, w, e, c1);
    } else if ValueAt(s, name, i).None? {
      FindValueComplete(s, name, i + 1, i', w, e, c1);
    }
  }

  /** The match `FindValue` reports from the start is the one `Regex.Match` reports. */
  lemma FindValueFirst(s: string, name: string)
    requires FindValue(s, name, 0).Some?
    ensures var h := FindValue(s, name, 0).value; FirstValueMatch(s, name, h.start, h.w, h.e, h.c1)
  {
    var h := FindValue(s, name, 0).value;
    forall i', w', e', c1' | ValueMatch(s, name, i', w', e', c1')
      ensures h.start < i' || (h.start == i' && h.c1 <= c1')
    {
      FindValueComplete(s, name, 0, i', w', e', c1');
    }
  }

  lemma FindValueNone(s: string, name: string)
    requires FindValue(s, name, 0).None?
    ensures forall i, w, e, c1 :: !ValueMatch(s, name, i, w, e, c1)
  {
    forall i, w, e, c1 | ValueMatch(s, name, i, w, e, c1)
      ensures false
    {
      FindValueComplete(s, name, 0, i, w, e, c1);
    }
  }

  /** `ExtractCarBasicOrHistoryDataFromGivenName`: the trimmed group of the match
      `Regex.Match` reports, or `string.Empty` (never null) when there is none. */
  function ExtractValue(body: string, name: string): (r: string)
    ensures (forall i, w, e, c1 :: !ValueMatch(body, name, i, w, e, c1)) ==> r == ""
    ensures (exists i, w, e, c1 :: ValueMatch(body, name, i, w, e, c1)) ==>
      exists i, w, e, c1 :: FirstValueMatch(body, name, i, w, e, c1) && IsTrimOf(r, body[e + 1..c1])
  {
    match FindValue(body, name, 0)
    case None =>
      FindValueNone(body, name);
      ""
    case Some(h) =>
      FindValueFirst(body, name);
      Trim(body[h.e + 1..h.c1])
  }

  // ---------------------------------------------------------------------------
  // Features: <dt>\s*NAME\s*<\/dt>\s*<dd>\s*<ul[^>]*>(.*?)<\/ul>\s*<\/dd>, Singleline

  /** `</ul>\s*</dd>` stands at `c1`, its `\s*` ending at `p6`. */
  ghost predicate ClosesList(s: string, c1: int, p6: int) {
    LitAt(s, c1, "</ul>") && SpaceRun(s, c1 + 5, p6) && LitAt(s, p6, "</dd>")
  }

  /** `<ul[^>]*>(.*?)<\/ul>\s*<\/dd>` matches from `p5`: the tag's `>` is at `e`, and
      group 1 is s[e + 1..c1], which may span lines. */
  ghost predicate ListMatch(s: string, p5: int, e: int, c1: int, p6: int) {
    && LitAt(s, p5, "<ul")
    && NoneOf(s, p5 + 3, e, '>') && e < |s| && s[e] == '>'
    && e + 1 <= c1 && ClosesList(s, c1, p6)
  }

  /** `<dd>\s*` and the list from `p4`, the `\s*` ending at `p5`. */
  ghost predicate DdList(s: string, p4: int, p5: int, e: int, c1: int, p6: int) {
    LitAt(s, p4, "<dd>") && SpaceRun(s, p4 + 4, p5) && ListMatch(s, p5, e, c1, p6)
  }

  /** `</dt>\s*` and the rest from `p3`, the `\s*` ending at `p4`. */
  ghost predicate DtList(s: string, p3: int, p4: int, p5: int, e: int, c1: int, p6: int) {
    LitAt(s, p3, "</dt>") && SpaceRun(s, p3 + 5, p4) && DdList(s, p4, p5, e, c1, p6)
  }

  /** The pattern from the name on, the name standing at `p1`. */
  ghost predicate FeatureTail(s: string, name: string, p1: int, p3: int, p4: int, p5: int, e: int, c1: int, p6: int) {
    LitAt(s, p1, name) && SpaceRun(s, p1 + |name|, p3) && DtList(s, p3, p4, p5, e, c1, p6)
  }

  /** The whole pattern matches from `i`. */
  ghost predicate FeatureMatch(s: string, name: string, i: int, p1: int, p3: int, p4: int, p5: int, e: int, c1: int, p6: int) {
    LitAt(s, i, "<dt>") && SpaceRun(s, i + 4, p1) && FeatureTail(s, name, p1, p3, p4, p5, e, c1, p6)
  }

  /** The match `Regex.Match` reports: leftmost; at that start the longest
      white-space run before the name that lets the rest match; then the shortest group. */
  ghost predicate FirstFeatureMatch(s: string, name: string, i: int, p1: int, p3: int, p4: int, p5: int, e: int, c1: int, p6: int) {
    && FeatureMatch(s, name, i, p1, p3, p4, p5, e, c1, p6)
    && forall i', p1', p3', p4', p5', e', c1', p6' ::
         FeatureMatch(s, name, i', p1', p3', p4', p5', e', c1', p6') ==>
           i < i' || (i == i' && (p1' < p1 || (p1' == p1 && c1 <= c1')))
  }

  datatype ListHit = ListHit(e: nat, c1: nat, p6: nat)

  datatype Tail = Tail(p3: nat, p4: nat, p5: nat, list: ListHit)

  datatype FeatureHit = FeatureHit(start: nat, p1: nat, tail: Tail)

  /** Where the pattern ends, as `(c1, p6)`: the first `</ul>\s*</dd>` at or after `k`. */
  function ListEnd(s: string, k: nat): (r: Option<(nat, nat)>)
    requires k <= |s|
    ensures r.Some? ==> k <= r.value.0 && ClosesList(s, r.value.0, r.value.1)
    decreases |s| - k
  {
    if LitAt(s, k, "</ul>") && LitAt(s, SkipSpace(s, k + 5), "</dd>") then Some((k, SkipSpace(s, k + 5)))
    else if k == |s| then None
    else ListEnd(s, k + 1)
  }

  lemma {:induction false} ListEndComplete(s: string, k: nat, c1: int, p6: int)
    requires k <= c1 && ClosesList(s, c1, p6)
    ensures ListEnd(s, k).Some? && ListEnd(s, k).value.0 <= c1
    decreases |s| - k
  {
    if k == c1 {
      LitAtHead(s, p6, "</dd>");
      SpaceRunForced(s, c1 + 5, p6);
    } else if !(LitAt(s, k, "</ul>") && LitAt(s, SkipSpace(s, k + 5), "</dd>")) {
      ListEndComplete(s, k + 1, c1, p6);
    }
  }

  /** `<ul[^>]*>(.*?)<\/ul>\s*<\/dd>` tried at `p5`. */
  function ListAt(s: string, p5: nat): (r: Option<ListHit>)
    requires p5 <= |s|
    ensures r.Some? ==> ListMatch(s, p5, r.value.e, r.value.c1, r.value.p6)
  {
    if !LitAt(s, p5, "<ul") then None
    else
      var e := FindChar(s, p5 + 3, '>');
      if e == |s| then None
      else
        match ListEnd(s, e + 1)
        case None => None
        case Some((c1, p6)) => Some(ListHit(e, c1, p6))
  }

  lemma ListAtComplete(s: string, p5: nat, e: int, c1: int, p6: int)
    requires ListMatch(s, p5, e, c1, p6)
    ensures ListAt(s, p5).Some? && ListAt(s, p5).value.c1 <= c1
  {
    FindCharForced(s, p5 + 3, '>', e);
    ListEndComplete(s, e + 1, c1, p6);
  }

  /** `<dd>\s*` and the list tried at `p4`, after `</dt>` at `p3`. */
  function DdAt(s: string, p3: nat, p4: nat): (r: Option<Tail>)
    requires p4 <= |s|
    ensures r.Some? ==> var l := r.value.list;
      r.value.p3 == p3 && r.value.p4 == p4 && DdList(s, p4, r.value.p5, l.e, l.c1, l.p6)
  {
    if !LitAt(s, p4, "<dd>") then None
    else
      var p5 := SkipSpace(s, p4 + 4);
      match ListAt(s, p5)
      case None => None
      case Some(l) => Some(Tail(p3, p4, p5, l))
  }

  lemma DdAtComplete(s: string, p3: nat, p4: nat, p5: int, e: int, c1: int, p6: int)
    requires DdList(s, p4, p5, e, c1, p6)
    ensures DdAt(s, p3, p4).Some? && DdAt(s, p3, p4).value.list.c1 <= c1
  {
    assert SkipSpace(s, p4 + 4) == p5 by {
      LitAtHead(s, p5, "<ul");
      SpaceRunForced(s, p4 + 4, p5);
    }
    ListAtComplete(s, p5, e, c1, p6);
  }

  /** `</dt>\s*` and the rest tried at `p3`. */
  function DtAt(s: string, p3: nat): (r: Option<Tail>)
    requires p3 <= |s|
    ensures r.Some? ==> var l := r.value.list;
      r.value.p3 == p3 && DtList(s, p3, r.value.p4, r.value.p5, l.e, l.c1, l.p6)
  {
    if !LitAt(s, p3, "</dt>") then None else DdAt(s, p3, SkipSpace(s, p3 + 5))
  }

  lemma DtAtComplete(s: string, p3: nat, p4: int, p5: int, e: int, c1: int, p6: int)
    requires DtList(s, p3, p4, p5, e, c1, p6)
    ensures DtAt(s, p3).Some? && DtAt(s, p3).value.list.c1 <= c1
  {
    assert SkipSpace(s, p3 + 5) == p4 by {
      LitAtHead(s, p4, "<dd>");
      SpaceRunForced(s, p3 + 5, p4);
    }
    DdAtComplete(s, p3, p4, p5, e, c1, p6);
  }

  /** The pattern from the name on, tried with the name at `p1`. */
  function TailAt(s: string, name: string, p1: nat): (r: Option<Tail>)
    requires p1 <= |s|
    ensures r.Some? ==> var l := r.value.list;
      FeatureTail(s, name, p1, r.value.p3, r.value.p4, r.value.p5, l.e, l.c1, l.p6)
  {
    if !LitAt(s, p1, name) then None else DtAt(s, SkipSpace(s, p1 + |name|))
  }

  lemma TailAtComplete(s: string, name: string, p1: nat, p3: int, p4: int, p5: int, e: int, c1: int, p6: int)
    requires FeatureTail(s, name, p1, p3, p4, p5, e, c1, p6)
    ensures TailAt(s, name, p1).Some? && TailAt(s, name, p1).value.list.c1 <= c1
  {
    assert SkipSpace(s, p1 + |name|) == p3 by {
      LitAtHead(s, p3, "</dt>");
      SpaceRunForced(s, p1 + |name|, p3);
    }
    DtAtComplete(s, p3, p4, p5, e, c1, p6);
  }

  /** Backtracking over the `\s*` after `<dt>`: the name tried at `p1`, then one
      character earlier, down to right after `<dt>`. */
  function FeatureFrom(s: string, name: string, i: nat, p1: nat): (r: Option<FeatureHit>)
    requires LitAt(s, i, "<dt>") && SpaceRun(s, i + 4, p1)
    ensures r.Some? ==> r.value.start == i && r.value.p1 <= p1
    ensures r.Some? ==> var t := r.value.tail; FeatureMatch(s, name, i, r.value.p1, t.p3, t.p4, t.p5, t.list.e, t.list.c1, t.list.p6)
    decreases p1
  {
    match TailAt(s, name, p1)
    case Some(t) => Some(FeatureHit(i, p1, t))
    case None =>
      if p1 == i + 4 then None
      else
        SpaceRunPrefix(s, i + 4, p1, p1 - 1);
        FeatureFrom(s, name, i, p1 - 1)
  }

  lemma {:induction false} FeatureFromComplete(s: string, name: string, i: nat, p1: nat,
                                               q1: nat, p3: int, p4: int, p5: int, e: int, c1: int, p6: int)
    requires LitAt(s, i, "<dt>") && SpaceRun(s, i + 4, p1) && i + 4 <= q1 <= p1
    requires FeatureTail(s, name, q1, p3, p4, p5, e, c1, p6)
    ensures FeatureFrom(s, name, i, p1).Some?
    ensures var h := FeatureFrom(s, name, i, p1).value; q1 < h.p1 || (q1 == h.p1 && h.tail.list.c1 <= c1)
    decreases p1
  {
    if p1 == q1 {
      TailAtComplete(s, name, p1, p3, p4, p5, e, c1, p6);
      var t := TailAt(s, name, p1).value;
      assert FeatureFrom(s, name, i, p1) == Some(FeatureHit(i, p1, t));
    } else if TailAt(s, name, p1).None? {
      SpaceRunPrefix(s, i + 4, p1, p1 - 1);
      FeatureFromComplete(s, name, i, p1 - 1, q1, p3, p4, p5, e, c1, p6);
    }
  }

  /** The pattern tried at `i` alone. */
  function FeatureAt(s: string, name: string, i: nat): (r: Option<FeatureHit>)
    requires i <= |s|
    ensures r.Some? ==> r.value.start == i
  {
    if LitAt(s, i, "<dt>") then FeatureFrom(s, name, i, SkipSpace(s, i + 4)) else None
  }

  lemma FeatureAtSound(s: string, name: string, i: nat)
    requires i <= |s|
    ensures var r := FeatureAt(s, name, i); r.Some? ==>
      var t := r.value.tail; FeatureMatch(s, name, i, r.value.p1, t.p3, t.p4, t.p5, t.list.e, t.list.c1, t.list.p6)
  {
  }

  lemma FeatureAtComplete(s: string, name: string, i: nat, q1: int, p3: int, p4: int, p5: int, e: int, c1: int, p6: int)
    requires i <= |s| && FeatureMatch(s, name, i, q1, p3, p4, p5, e, c1, p6)
    ensures FeatureAt(s, name, i).Some?
    ensures var h := FeatureAt(s, name, i).value; q1 < h.p1 || (q1 == h.p1 && h.tail.list.c1 <= c1)
  {
    SpaceRunBounded(s, i + 4, q1);
    FeatureFromComplete(s, name, i, SkipSpace(s, i + 4), q1, p3, p4, p5, e, c1, p6);
  }

  /** `Regex.Match` with Singleline: the leftmost match at or after `i`. */
  function FindFeature(s: string, name: string, i: nat): (r: Option<FeatureHit>)
    requires i <= |s|
    ensures r.Some? ==> i <= r.value.start <= |s|
    decreases |s| - i
  {
    match FeatureAt(s, name, i)
    case Some(h) => Some(h)
    case None => if i == |s| then None else FindFeature(s, name, i + 1)
  }

  /** What `FindFeature` reports is a match. */
  lemma {:induction false} FindFeatureSound(s: string, name: string, i: nat)
    requires i <= |s|
    ensures var r := FindFeature(s, name, i); r.Some? ==>
      var t := r.value.tail; FeatureMatch(s, name, r.value.start, r.value.p1, t.p3, t.p4, t.p5, t.list.e, t.list.c1, t.list.p6)
    decreases |s| - i
  {
    FeatureAtSound(s, name, i);
    if FeatureAt(s, name, i).None? && i < |s| {
      FindFeatureSound(s, name, i + 1);
    }
  }

  lemma {:induction false} FindFeatureComplete(s: string, name: string, i: nat,
                                               i': int, q1: int, p3: int, p4: int, p5: int, e: int, c1: int, p6: int)
    requires i <= i' && FeatureMatch(s, name, i', q1, p3, p4, p5, e, c1, p6)
    ensures FindFeature(s, name, i).Some?
    ensures var h := FindFeature(s, name, i).value;
      h.start < i' || (h.start == i' && (q1 < h.p1 || (q1 == h.p1 && h.tail.list.c1 <= c1)))
    decreases |s| - i
  {
    assert i' <= |s|;
    if i == i' {
      FeatureAtComplete(s, name, i, q1, p3, p4, p5, e, c1, p6);
    } else if FeatureAt(s, name, i).None? {
      FindFeatureComplete(s, name, i + 1, i', q1, p3, p4, p5, e, c1, p6);
    }
  }

  /** The hit `FindFeature` reports is the match `Regex.Match` reports. */
  lemma FindFeatureFirst(s: string, name: string)
    requires FindFeature(s, name, 0).Some?
    ensures var h := FindFeature(s, name, 0).value; var t := h.tail;
      FirstFeatureMatch(s, name, h.start, h.p1, t.p3, t.p4, t.p5, t.list.e, t.list.c1, t.list.p6)
  {
    var h := FindFeature(s, name, 0).value;
    FindFeatureSound(s, name, 0);
    forall i', q1, p3, p4, p5, e, c1, p6 | FeatureMatch(s, name, i', q1, p3, p4, p5, e, c1, p6)
      ensures h.start < i' || (h.start == i' && (q1 < h.p1 || (q1 == h.p1 && h.tail.list.c1 <= c1)))
    {
      FindFeatureComplete(s, name, 0, i', q1, p3, p4, p5, e, c1, p6);
    }
  }

  lemma FindFeatureNone(s: string, name: string)
    requires FindFeature(s, name, 0).None?
    ensures forall i, p1, p3, p4, p5, e, c1, p6 :: !FeatureMatch(s, name, i, p1, p3, p4, p5, e, c1, p6)
  {
    forall i, p1, p3, p4, p5, e, c1, p6 | FeatureMatch(s, name, i, p1, p3, p4, p5, e, c1, p6)
      ensures false
    {
      FindFeatureComplete(s, name, 0, i, p1, p3, p4, p5, e, c1, p6);
    }
  }

  // ---------------------------------------------------------------------------
  // List items: <li[^>]*>(.*?)<\/li>, without Singleline

  /** The pattern matches from `i`: the tag's `>` is at `e` and group 1 is u[e + 1..c1]. */
  ghost predicate ItemMatch(u: string, i: int, e: int, c1: int) {
    && LitAt(u, i, "<li")
    && NoneOf(u, i + 3, e, '>') && e < |u| && u[e] == '>'
    && NoneOf(u, e + 1, c1, '\n') && LitAt(u, c1, "</li>")
  }

  datatype ItemHit = ItemHit(start: nat, e: nat, c1: nat)

  function ItemAt(u: string, i: nat): (r: Option<ItemHit>)
    requires i <= |u|
    ensures r.Some? ==> r.value.start == i && ItemMatch(u, i, r.value.e, r.value.c1)
  {
    if !LitAt(u, i, "<li") then None
    else
      var e := FindChar(u, i + 3, '>');
      if e == |u| then None
      else
        match LazyLineEnd(u, e + 1, "</li>")
        case None => None
        case Some(c1) => Some(ItemHit(i, e, c1))
  }

  lemma ItemAtComplete(u: string, i: nat, e: int, c1: int)
    requires i <= |u| && ItemMatch(u, i, e, c1)
    ensures ItemAt(u, i).Some? && ItemAt(u, i).value.c1 <= c1
  {
    FindCharForced(u, i + 3, '>', e);
    LazyLineEndComplete(u, e + 1, "</li>", c1);
  }

  function FindItem(u: string, i: nat): (r: Option<ItemHit>)
    requires i <= |u|
    ensures r.Some? ==> i <= r.value.start && ItemMatch(u, r.value.start, r.value.e, r.value.c1)
    decreases |u| - i
  {
    match ItemAt(u, i)
    case Some(h) => Some(h)
    case None => if i == |u| then None else FindItem(u, i + 1)
  }

  lemma {:induction false} FindItemComplete(u: string, i: nat, i': int, e: int, c1: int)
    requires i <= i' && ItemMatch(u, i', e, c1)
    ensures FindItem(u, i).Some?
    ensures var h := FindItem(u, i).value; h.start < i' || (h.start == i' && h.c1 <= c1)
    decreases |u| - i
  {
    assert i' <= |u|;
    if i == i' {
      ItemAtComplete(u, i, e, c1);
    } else if ItemAt(u, i).None? {
      FindItemComplete(u, i + 1, i', e, c1);
    }
  }

  /** `h` is the match a search that starts at `from` reports. */
  ghost predicate FirstItemFrom(u: string, from: int, h: ItemHit) {
    && from <= h.start && ItemMatch(u, h.start, h.e, h.c1)
    && forall i', e', c1' :: from <= i' && ItemMatch(u, i', e', c1') ==> h.start < i' || (h.start == i' && h.c1 <= c1')
  }

  /** `Regex.Matches` from `from` on: each match is the first one at or after the
      end of the one before, and none is left after the last. */
  ghost predicate MatchSequence(u: string, from: int, hits: seq<ItemHit>)
    decreases |hits|
  {
    if hits == [] then forall i, e, c1 :: from <= i ==> !ItemMatch(u, i, e, c1)
    else FirstItemFrom(u, from, hits[0]) && MatchSequence(u, hits[0].c1 + 5, hits[1..])
  }

  lemma FindItemFirst(u: string, from: nat)
    requires from <= |u| && FindItem(u, from).Some?
    ensures FirstItemFrom(u, from, FindItem(u, from).value)
  {
    forall i', e', c1' | from <= i' && ItemMatch(u, i', e', c1')
      ensures FindItem(u, from).value.start < i' || (FindItem(u, from).value.start == i' && FindItem(u, from).value.c1 <= c1')
    {
      FindItemComplete(u, from, i', e', c1');
    }
  }

  lemma FindItemNone(u: string, from: nat)
    requires from <= |u| && FindItem(u, from).None?
    ensures forall i, e, c1 :: from <= i ==> !ItemMatch(u, i, e, c1)
  {
    forall i, e, c1 | from <= i && ItemMatch(u, i, e, c1)
      ensures false
    {
      FindItemComplete(u, from, i, e, c1);
    }
  }

  /** Every group of `hits` lies inside `u`. */
  predicate Within(u: string, hits: seq<ItemHit>)
    decreases |hits|
  {
    hits != [] ==> hits[0].e + 1 <= hits[0].c1 <= |u| && Within(u, hits[1..])
  }

  /** Every match from `from` on, in order. */
  function Items(u: string, from: nat): (hits: seq<ItemHit>)
    requires from <= |u|
    ensures MatchSequence(u, from, hits) && Within(u, hits)
    decreases |u| - from
  {
    match FindItem(u, from)
    case None =>
      FindItemNone(u, from);
      []
    case Some(h) =>
      FindItemFirst(u, from);
      var rest := Items(u, h.c1 + 5);
      assert ([h] + rest)[1..] == rest;
      [h] + rest
  }

  /** The description of `Regex.Matches` pins the matches down. */
  lemma {:induction false} MatchSequenceUnique(u: string, from: int, hits1: seq<ItemHit>, hits2: seq<ItemHit>)
    requires MatchSequence(u, from, hits1) && MatchSequence(u, from, hits2)
    ensures hits1 == hits2
    decreases |hits1|
  {
    if hits1 != [] && hits2 != [] {
      var h1, h2 := hits1[0], hits2[0];
      assert h1.start == h2.start && h1.c1 == h2.c1;
      FindCharForced(u, h1.start + 3, '>', h1.e);
      FindCharForced(u, h2.start + 3, '>', h2.e);
      MatchSequenceUnique(u, h1.c1 + 5, hits1[1..], hits2[1..]);
    }
  }

  /** The trimmed group of `h`. */
  ghost predicate TrimmedCapture(u: string, h: ItemHit, text: string) {
    h.e + 1 <= h.c1 <= |u| && IsTrimOf(text, u[h.e + 1..h.c1])
  }

  /** `texts` are the trimmed groups of `hits`, one for one and in order. */
  ghost predicate Captures(u: string, hits: seq<ItemHit>, texts: seq<string>)
    decreases |hits|
  {
    |hits| == |texts| && (hits != [] ==> TrimmedCapture(u, hits[0], texts[0]) && Captures(u, hits[1..], texts[1..]))
  }

  /** `texts` are the trimmed groups of the matches of `<li[^>]*>(.*?)<\/li>` in `u`, in order. */
  ghost predicate ItemTextsOf(u: string, texts: seq<string>) {
    exists hits :: MatchSequence(u, 0, hits) && Captures(u, hits, texts)
  }

  /** `Select(m => m.Groups[1].Value.Trim())` over the matches `hits`. */
  function Groups(u: string, hits: seq<ItemHit>): (texts: seq<string>)
    requires Within(u, hits)
    ensures Captures(u, hits, texts)
    decreases |hits|
  {
    if hits == [] then []
    else
      var t := Trim(u[hits[0].e + 1..hits[0].c1]);
      var rest := Groups(u, hits[1..]);
      assert ([t] + rest)[1..] == rest;
      [t] + rest
  }

  /** `liMatches...Select(m => m.Groups[1].Value.Trim()).ToList()`. */
  function ItemTexts(u: string): (texts: seq<string>)
    ensures ItemTextsOf(u, texts)
  {
    Groups(u, Items(u, 0))
  }

  /** The same matches have the same trimmed groups. */
  lemma {:induction false} CapturesUnique(u: string, hits: seq<ItemHit>, t1: seq<string>, t2: seq<string>)
    requires Captures(u, hits, t1) && Captures(u, hits, t2)
    ensures t1 == t2
    decreases |hits|
  {
    if hits != [] {
      TrimUnique(t1[0], t2[0], u[hits[0].e + 1..hits[0].c1]);
      CapturesUnique(u, hits[1..], t1[1..], t2[1..]);
      assert t1 == [t1[0]] + t1[1..] && t2 == [t2[0]] + t2[1..];
    }
  }

  /** A section lists the same items whichever way they are described. */
  lemma ItemTextsUnique(u: string, t1: seq<string>, t2: seq<string>)
    requires ItemTextsOf(u, t1) && ItemTextsOf(u, t2)
    ensures t1 == t2
  {
    var h1: seq<ItemHit> :| MatchSequence(u, 0, h1) && Captures(u, h1, t1);
    var h2: seq<ItemHit> :| MatchSequence(u, 0, h2) && Captures(u, h2, t2);
    MatchSequenceUnique(u, 0, h1, h2);
    CapturesUnique(u, h1, t1, t2);
  }

  /** `ExtractCarFeatureDataFromGivenName`: `None` (null) when the pattern does not
      match; otherwise the trimmed list items of the group of the match `Regex.Match`
      reports. */
  function ExtractFeature(body: string, name: string): (r: Option<seq<string>>)
    ensures r.None? <==> forall i, p1, p3, p4, p5, e, c1, p6 :: !FeatureMatch(body, name, i, p1, p3, p4, p5, e, c1, p6)
    ensures r.Some? ==> exists i, p1, p3, p4, p5, e, c1, p6 ::
      FirstFeatureMatch(body, name, i, p1, p3, p4, p5, e, c1, p6) && ItemTextsOf(body[e + 1..c1], r.value)
  {
    match FindFeature(body, name, 0)
    case None =>
      FindFeatureNone(body, name);
      None
    case Some(h) =>
      FindFeatureFirst(body, name);
      Some(ItemTexts(body[h.tail.list.e + 1..h.tail.list.c1]))
  }
}
