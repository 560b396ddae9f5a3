/** The response extractor of the generation proxy: `text.match(/```(json)?\s*([\s\S]*?)\s*```/)`
    and, when the match exists and its second group is non-empty, that group; otherwise the text
    unchanged.

    Two definitions are given. ExtractJson is a hand-written scanner: find the first fence, skip
    an optional `json` tag and white space, find the next fence, and drop the white space before
    it. RegexExtract follows the regular expression engine instead: the leftmost start, the
    greedy optional tag first, the greedy `\s*` first and then shorter, the lazy body shortest
    first, the greedy `\s*` before the closing fence first and then shorter. RegexAgreement proves
    that both give the same capture for every text. */
module ExtractJson {
  import opened Optional
  import opened Text

  /** Three backticks start at position i. */
  predicate FenceAt(s: string, i: int) {
    0 <= i && i + 3 <= |s| && s[i] == '`' && s[i + 1] == '`' && s[i + 2] == '`'
  }

  /** The optional language tag `json` starts at position i. */
  predicate JsonTagAt(s: string, i: int) {
    0 <= i && i + 4 <= |s| && s[i] == 'j' && s[i + 1] == 's' && s[i + 2] == 'o' && s[i + 3] == 'n'
  }

  /** No fence starts in [lo, hi). */
  predicate NoFenceBetween(s: string, lo: int, hi: int) {
    forall k :: lo <= k < hi ==> !FenceAt(s, k)
  }

  /** No fence starts at or after lo. */
  predicate NoFenceFrom(s: string, lo: int) {
    forall k :: lo <= k < |s| ==> !FenceAt(s, k)
  }

  /** `s` holds no three consecutive backticks. */
  predicate NoFence(s: string) {
    forall k :: 0 <= k < |s| ==> !FenceAt(s, k)
  }

  /** An opening fence followed, at or after its end, by another fence. */
  ghost predicate HasFencePair(s: string) {
    exists p, f :: FenceAt(s, p) && FenceAt(s, f) && p + 3 <= f
  }

  // ---------------------------------------------------------------------------------------
  // The scanner

  /** The first fence at or after i. */
  function FindFence(s: string, i: nat): (r: Option<nat>)
    decreases |s| - i
    ensures r.Some? ==> i <= r.value && FenceAt(s, r.value) && NoFenceBetween(s, i, r.value)
    ensures r.None? ==> NoFenceFrom(s, i)
  {
    if i + 3 > |s| then None
    else if FenceAt(s, i) then Some(i)
    else FindFence(s, i + 1)
  }

  /** Past the optional `json` tag at t. */
  function TagEnd(s: string, t: nat): (r: nat)
    requires t <= |s|
    ensures r <= |s|
    ensures JsonTagAt(s, t) ==> r == t + 4
    ensures !JsonTagAt(s, t) ==> r == t
  {
    if JsonTagAt(s, t) then t + 4 else t
  }

  /** From position t (after the opening fence and tag): the body runs from the end of the
      white space to the start of the white space before the next fence. */
  function OpenBody(s: string, t: nat): (r: Option<(nat, nat)>)
    requires t <= |s|
    ensures r.Some? ==> t <= r.value.0 <= r.value.1 <= |s|
    ensures r.Some? <==> !NoFenceFrom(s, SkipSpace(s, t))
    ensures r.Some? ==> SpaceBetween(s, t, r.value.0) && NoFenceBetween(s, r.value.0, r.value.1)
    ensures r.Some? && r.value.0 < r.value.1 ==> !IsSpace(s[r.value.0]) && !IsSpace(s[r.value.1 - 1])
  {
    var b := SkipSpace(s, t);
    match FindFence(s, b)
    case None => None
    case Some(k) => Some((b, TrailStart(s, b, k)))
  }

  /** The body of a block whose opening fence starts at p. */
  function BodyAfter(s: string, p: nat): (r: Option<(nat, nat)>)
    requires FenceAt(s, p)
    ensures r.Some? ==> p + 3 <= r.value.0 <= r.value.1 <= |s|
    ensures r.Some? ==> SpaceBetween(s, TagEnd(s, p + 3), r.value.0)
  {
    OpenBody(s, TagEnd(s, p + 3))
  }

  /** The span of the second group of the match, if the text matches. */
  function FencedBody(s: string): (r: Option<(nat, nat)>)
    ensures r.Some? ==> r.value.0 <= r.value.1 <= |s|
    ensures r.Some? ==> FindFence(s, 0).Some? && FindFence(s, 0).value + 3 <= r.value.0
  {
    match FindFence(s, 0)
    case None => None
    case Some(p) => BodyAfter(s, p)
  }

  /** `extractJson`: the text itself, or a non-empty text strictly shorter than it. */
  function ExtractJson(text: string): (r: string)
    ensures r == text || 0 < |r| < |text|
  {
    match FencedBody(text)
    case Some((b, e)) => if b < e then text[b..e] else text
    case None => text
  }

  // ---------------------------------------------------------------------------------------
  // The regular expression, alternative by alternative, in the engine's order of preference

  /** `\s*```` at e after the greedy `\s*` took the run up to f: a fence at f, or give back. */
  function CloseFrom(s: string, e: nat, f: nat): (r: bool)
    requires e <= f <= |s|
    decreases f - e
    ensures r <==> exists g :: e <= g <= f && FenceAt(s, g)
  {
    FenceAt(s, f) || (e < f && CloseFrom(s, e, f - 1))
  }

  /** `([\s\S]*?)\s*```` with the group starting at e: the shortest group first. */
  function LazyBody(s: string, e: nat): (r: Option<nat>)
    requires e <= |s|
    decreases |s| - e
    ensures r.Some? ==> e <= r.value <= |s| && CloseFrom(s, r.value, SkipSpace(s, r.value))
    ensures forall j :: e <= j <= |s| && (r.None? || j < r.value) ==> !CloseFrom(s, j, SkipSpace(s, j))
  {
    if CloseFrom(s, e, SkipSpace(s, e)) then Some(e)
    else if e == |s| then None
    else LazyBody(s, e + 1)
  }

  /** `\s*` before the group, having taken the white space of [t, q): the longest first. */
  function LeadingSpace(s: string, t: nat, q: nat): (r: Option<(nat, nat)>)
    requires t <= q <= |s|
    decreases q - t
    ensures r.Some? ==> t <= r.value.0 <= q && r.value.0 <= r.value.1 <= |s|
    ensures r.Some? ==> LazyBody(s, r.value.0) == Some(r.value.1)
    ensures forall j :: t <= j <= q && (r.None? || r.value.0 < j) ==> LazyBody(s, j).None?
  {
    match LazyBody(s, q)
    case Some(e) => Some((q, e))
    case None => if q == t then None else LeadingSpace(s, t, q - 1)
  }

  /** `\s*([\s\S]*?)\s*```` after the tag, at t: the group starts after white space only. */
  function AfterOpen(s: string, t: nat): (r: Option<(nat, nat)>)
    requires t <= |s|
    ensures r.Some? ==> t <= r.value.0 <= r.value.1 <= |s| && SpaceBetween(s, t, r.value.0)
  {
    LeadingSpace(s, t, SkipSpace(s, t))
  }

  /** The pattern tried at p: the fence, then `(json)?` with the tag first. */
  function MatchAt(s: string, p: nat): (r: Option<(nat, nat)>)
    requires p <= |s|
    ensures r.Some? ==> FenceAt(s, p) && p + 3 <= r.value.0 <= r.value.1 <= |s|
  {
    if !FenceAt(s, p) then None
    else if JsonTagAt(s, p + 3) && AfterOpen(s, p + 7).Some? then AfterOpen(s, p + 7)
    else AfterOpen(s, p + 3)
  }

  /** `String.prototype.match` without the global flag: the leftmost start that matches. */
  function Search(s: string, p: nat): (r: Option<(nat, nat)>)
    requires p <= |s|
    decreases |s| - p
    ensures r.Some? ==> p + 3 <= r.value.0 <= r.value.1 <= |s|
  {
    match MatchAt(s, p)
    case Some(m) => Some(m)
    case None => if p == |s| then None else Search(s, p + 1)
  }

  /** The pattern matches at no start in [lo, hi). */
  predicate NoMatchBetween(s: string, lo: nat, hi: nat) {
    forall q :: lo <= q < hi && q <= |s| ==> MatchAt(s, q).None?
  }

  /** Search returns the match at the leftmost start at or after p, and none when no start
      matches. */
  lemma {:induction false} SearchLeftmost(s: string, p: nat)
    requires p <= |s|
    decreases |s| - p
    ensures Search(s, p).Some? ==>
      exists q :: p <= q <= |s| && MatchAt(s, q) == Search(s, p) && NoMatchBetween(s, p, q)
    ensures Search(s, p).None? ==> NoMatchBetween(s, p, |s| + 1)
  {
    if MatchAt(s, p).Some? {
      assert NoMatchBetween(s, p, p);
    } else if p < |s| {
      SearchLeftmost(s, p + 1);
      if Search(s, p).Some? {
        var q :| p + 1 <= q <= |s| && MatchAt(s, q) == Search(s, p) && NoMatchBetween(s, p + 1, q);
        assert NoMatchBetween(s, p, q);
      }
    }
  }

  /** `extractJson` as the source writes it, over the regular expression's match. */
  function RegexExtract(text: string): (r: string)
    ensures r == text || 0 < |r| < |text|
  {
    match Search(text, 0)
    case Some((b, e)) => if b < e then text[b..e] else text
    case None => text
  }

  // ---------------------------------------------------------------------------------------
  // The scanner and the regular expression agree

  /** Giving back white space never uncovers a fence. */
  lemma {:induction false} CloseWithinSpace(s: string, e: nat, f: nat)
    requires e <= |s| && e <= f < SkipSpace(s, e)
    ensures !CloseFrom(s, e, f)
    decreases f - e
  {
    assert IsSpace(s[f]);
    if e < f {
      CloseWithinSpace(s, e, f - 1);
    }
  }

  lemma CloseIsFence(s: string, e: nat)
    requires e <= |s|
    ensures CloseFrom(s, e, SkipSpace(s, e)) == FenceAt(s, SkipSpace(s, e))
  {
    var w := SkipSpace(s, e);
    if e < w {
      CloseWithinSpace(s, e, w - 1);
    }
  }

  lemma {:induction false} LazyWithoutFence(s: string, e: nat)
    requires e <= |s| && NoFenceFrom(s, e)
    ensures LazyBody(s, e) == None
    decreases |s| - e
  {
    CloseIsFence(s, e);
    if e < |s| {
      LazyWithoutFence(s, e + 1);
    }
  }

  /** Before the next fence k, the lazy body stops where the white space before k begins. */
  lemma {:induction false} LazyFindsTrail(s: string, b: nat, k: nat, e: nat)
    requires b <= k <= |s| && FenceAt(s, k) && NoFenceBetween(s, b, k)
    requires b <= e <= TrailStart(s, b, k)
    ensures LazyBody(s, e) == Some(TrailStart(s, b, k))
    decreases TrailStart(s, b, k) - e
  {
    var m := TrailStart(s, b, k);
    CloseIsFence(s, e);
    if e == m {
      SkipSpaceExact(s, m, k);
    } else {
      var j := SkipSpace(s, e);
      assert j < m;
      assert !FenceAt(s, j);
      LazyFindsTrail(s, b, k, e + 1);
    }
  }

  lemma {:induction false} LeadingWithoutFence(s: string, t: nat, q: nat)
    requires t <= q <= |s| && NoFenceFrom(s, t)
    ensures LeadingSpace(s, t, q) == None
    decreases q - t
  {
    LazyWithoutFence(s, q);
    if q > t {
      LeadingWithoutFence(s, t, q - 1);
    }
  }

  /** A fence cannot start inside white space. */
  lemma NoFenceInSpace(s: string, lo: nat, hi: nat)
    requires SpaceBetween(s, lo, hi)
    ensures NoFenceBetween(s, lo, hi)
  {
    forall k | lo <= k < hi ensures !FenceAt(s, k) {
      assert IsSpace(s[k]);
    }
  }

  lemma AfterOpenIsOpenBody(s: string, t: nat)
    requires t <= |s|
    ensures AfterOpen(s, t) == OpenBody(s, t)
  {
    var b := SkipSpace(s, t);
    match FindFence(s, b)
    case Some(k) =>
      LazyFindsTrail(s, b, k, b);
    case None =>
      NoFenceInSpace(s, t, b);
      LeadingWithoutFence(s, t, b);
  }

  /** When a block opened at p has no body, no fence follows the opening one. */
  lemma OpenWithoutClose(s: string, p: nat)
    requires FenceAt(s, p) && BodyAfter(s, p) == None
    ensures NoFenceFrom(s, p + 3)
  {
    var t := TagEnd(s, p + 3);
    var b := SkipSpace(s, t);
    NoFenceInSpace(s, t, b);
    assert NoFenceBetween(s, p + 3, t);
  }

  /** At every fence the regular expression captures what the scanner finds. */
  lemma MatchAtFence(s: string, p: nat)
    requires FenceAt(s, p)
    ensures MatchAt(s, p) == BodyAfter(s, p)
  {
    AfterOpenIsOpenBody(s, p + 3);
    if JsonTagAt(s, p + 3) {
      AfterOpenIsOpenBody(s, p + 7);
      if OpenBody(s, p + 7) == None {
        OpenWithoutClose(s, p);
        assert SkipSpace(s, p + 3) == p + 3;
      }
    }
  }

  lemma {:induction false} SearchWithoutFence(s: string, p: nat, lo: nat)
    requires p <= |s| && lo <= p + 3 && NoFenceFrom(s, lo)
    ensures Search(s, p) == None
    decreases |s| - p
  {
    if FenceAt(s, p) {
      MatchAtFence(s, p);
    }
    if p < |s| {
      SearchWithoutFence(s, p + 1, lo);
    }
  }

  lemma {:induction false} SearchUpToFirstFence(s: string, p: nat, p0: nat)
    requires p <= p0 && FenceAt(s, p0) && NoFenceBetween(s, p, p0)
    ensures Search(s, p) == BodyAfter(s, p0)
    decreases p0 - p
  {
    if p < p0 {
      SearchUpToFirstFence(s, p + 1, p0);
    } else {
      MatchAtFence(s, p0);
      if BodyAfter(s, p0) == None {
        OpenWithoutClose(s, p0);
        SearchWithoutFence(s, p0 + 1, p0 + 3);
      }
    }
  }

  /** The scanner captures exactly what the regular expression captures, so extractJson and
      the scanner agree on every text. */
  lemma RegexAgreement(s: string)
    ensures Search(s, 0) == FencedBody(s)
    ensures RegexExtract(s) == ExtractJson(s)
  {
    match FindFence(s, 0)
    case None =>
      SearchWithoutFence(s, 0, 0);
    case Some(p) =>
      SearchUpToFirstFence(s, 0, p);
  }

  // ---------------------------------------------------------------------------------------
  // What extractJson does

  /** FindFence returns the first fence at or after i. */
  lemma FindFenceFirst(s: string, i: nat, p: nat)
    requires i <= p && FenceAt(s, p) && NoFenceBetween(s, i, p)
    ensures FindFence(s, i) == Some(p)
  {
  }

  /** A block is found exactly when a fence follows, somewhere at or after its end, an opening
      fence. */
  lemma FencedBodyIffPair(s: string)
    ensures FencedBody(s).Some? <==> HasFencePair(s)
    ensures !HasFencePair(s) ==> ExtractJson(s) == s
  {
    match FindFence(s, 0)
    case None =>
    case Some(p) =>
      if BodyAfter(s, p).Some? {
        var b := BodyAfter(s, p).value.0;
        var k := FindFence(s, b).value;
        assert FenceAt(s, p) && FenceAt(s, k) && p + 3 <= k;
      } else {
        OpenWithoutClose(s, p);
      }
  }

  /** With the opening fence first in the text, the span found is the one between the white
      space after the tag t and the white space before the next fence k. */
  lemma BodyBetween(s: string, p: nat, k: nat)
    requires FenceAt(s, p) && NoFenceBetween(s, 0, p)
    requires TagEnd(s, p + 3) <= k && FenceAt(s, k) && NoFenceBetween(s, TagEnd(s, p + 3), k)
    ensures var b := SkipSpace(s, TagEnd(s, p + 3));
      b <= k && FencedBody(s) == Some((b, TrailStart(s, b, k)))
  {
    var t := TagEnd(s, p + 3);
    FindFenceFirst(s, 0, p);
    var b := SkipSpace(s, t);
    assert b <= k;
    FindFenceFirst(s, b, k);
  }

  /** Trimming s[t..k], with k followed by no white space, gives the span that the skips find. */
  lemma TrimmedSpan(s: string, t: nat, k: nat)
    requires t <= k < |s| && !IsSpace(s[k])
    ensures var b := SkipSpace(s, t);
      b <= k && Trim(s[t..k]) == s[b..TrailStart(s, b, k)]
  {
    var b := SkipSpace(s, t);
    assert b <= k;
    var m := TrailStart(s, b, k);
    SpaceInSlice(s, t, k, t, b);
    SpaceInSlice(s, t, k, m, k);
    TrimOfSlice(s[t..k], s, t, b, m, k);
  }

  /** With p the first fence and k the first fence after its tag t, the result is the trimmed
      text between them, or the whole text when that is blank. */
  lemma FirstBlock(s: string, p: nat, k: nat)
    requires FenceAt(s, p) && NoFenceBetween(s, 0, p)
    requires TagEnd(s, p + 3) <= k && FenceAt(s, k) && NoFenceBetween(s, TagEnd(s, p + 3), k)
    ensures var inner := Trim(s[TagEnd(s, p + 3)..k]);
      ExtractJson(s) == if inner == "" then s else inner
  {
    BodyBetween(s, p, k);
    TrimmedSpan(s, TagEnd(s, p + 3), k);
  }

  /** A span that lies before a fence-free stretch holds no fence. */
  lemma NoFenceInside(s: string, b: nat, m: nat, k: nat)
    requires b <= m <= k <= |s| && NoFenceBetween(s, b, k)
    ensures NoFence(s[b..m])
  {
    var r := s[b..m];
    forall i | 0 <= i < |r| ensures !FenceAt(r, i) {
      if FenceAt(r, i) {
        assert FenceAt(s, b + i);
      }
    }
  }

  /** The result is the text unchanged, or a non-empty, shorter text with no white space at
      either end and no fence inside. */
  lemma ExtractShape(s: string)
    ensures var r := ExtractJson(s);
      || r == s
      || (&& 0 < |r| < |s| && !IsSpace(r[0]) && !IsSpace(r[|r| - 1]) && NoFence(r))
  {
    var body := FencedBody(s);
    if body.Some? && body.value.0 < body.value.1 {
      var p := FindFence(s, 0).value;
      assert body == OpenBody(s, TagEnd(s, p + 3));
      TrimmedFenceFree(s, body.value.0, body.value.1);
    }
  }

  /** A slice with no white space at its ends and no fence inside it. */
  lemma TrimmedFenceFree(s: string, b: nat, m: nat)
    requires b < m <= |s| && !IsSpace(s[b]) && !IsSpace(s[m - 1]) && NoFenceBetween(s, b, m)
    ensures var r := s[b..m]; !IsSpace(r[0]) && !IsSpace(r[|r| - 1]) && NoFence(r)
  {
    NoFenceInside(s, b, m, m);
    assert s[b..m][0] == s[b] && s[b..m][m - b - 1] == s[m - 1];
  }

  /** Idempotence: a second application changes nothing. */
  lemma ExtractIdempotent(s: string)
    ensures ExtractJson(ExtractJson(s)) == ExtractJson(s)
  {
    ExtractShape(s);
    var r := ExtractJson(s);
    if r != s {
      FencedBodyIffPair(r);
    }
  }

  /** Where the three parts of a concatenation sit in it. */
  lemma ThreeParts(a: string, x: string, c: string)
    ensures var s := a + x + c;
      && |s| == |a| + |x| + |c|
      && (forall i :: 0 <= i < |a| ==> s[i] == a[i])
      && (forall i :: 0 <= i < |x| ==> s[|a| + i] == x[i])
      && (forall i :: 0 <= i < |c| ==> s[|a| + |x| + i] == c[i])
      && s[|a|..|a| + |x|] == x
  {
  }

  /** The fences, the tag and the line breaks of a text wrapped in a `json` block. */
  lemma WrappedLayout(x: string)
    ensures var s, k := "```json\n" + x + "\n```", |x| + 9;
      && |s| == k + 3 && FenceAt(s, 0) && TagEnd(s, 3) == 7 && FenceAt(s, k)
      && s[7] == '\n' && s[8..k - 1] == x && s[k - 1] == '\n'
  {
    ThreeParts("```json\n", x, "\n```");
  }

  /** A fence-free text between two characters that are not backticks: no fence starts from
      the character before it up to the character after it. */
  lemma NoFenceAround(a: string, x: string, c: string)
    requires NoFence(x) && |a| > 0 && a[|a| - 1] != '`' && |c| > 0 && c[0] != '`'
    ensures NoFenceBetween(a + x + c, |a| - 1, |a| + |x| + 1)
  {
    var s, n := a + x + c, |a|;
    ThreeParts(a, x, c);
    forall j | n - 1 <= j < n + |x| + 1 ensures !FenceAt(s, j) {
      if j == n - 1 {
        assert s[j] == a[n - 1];
      } else if j + 3 <= n + |x| {
        assert !FenceAt(x, j - n);
        assert s[j] == x[j - n] && s[j + 1] == x[j - n + 1] && s[j + 2] == x[j - n + 2];
      } else {
        assert s[n + |x|] == c[0];
      }
    }
  }

  /** A line break, a trimmed body and a line break trim to the body. */
  lemma TrimBetweenBreaks(s: string, x: string, k: nat)
    requires 9 <= k <= |s| && s[7] == '\n' && s[8..k - 1] == x && s[k - 1] == '\n'
    requires x != [] && !IsSpace(x[0]) && !IsSpace(x[|x| - 1])
    ensures Trim(s[7..k]) == x
  {
    assert s[8] == x[0] && s[k - 2] == x[|x| - 1];
    SpaceInSlice(s, 7, k, 7, 8);
    SpaceInSlice(s, 7, k, k - 1, k);
    TrimOfSlice(s[7..k], s, 7, 8, k - 1, k);
  }

  /** A block opened by the first fence and a `json` tag, holding a line break, a trimmed body
      and a line break before the closing fence, yields that body. */
  lemma TaggedBlockBody(s: string, x: string, k: nat)
    requires FenceAt(s, 0) && TagEnd(s, 3) == 7 && 9 <= k && FenceAt(s, k)
    requires NoFenceBetween(s, 7, k) && s[7] == '\n' && s[8..k - 1] == x && s[k - 1] == '\n'
    requires x != [] && !IsSpace(x[0]) && !IsSpace(x[|x| - 1])
    ensures ExtractJson(s) == x
  {
    FirstBlock(s, 0, k);
    TrimBetweenBreaks(s, x, k);
  }

  /** A trimmed text without fences, wrapped in a `json` block, comes back out unchanged. */
  lemma WrappedRoundTrip(x: string)
    requires x != [] && !IsSpace(x[0]) && !IsSpace(x[|x| - 1]) && NoFence(x)
    ensures ExtractJson("```json\n" + x + "\n```") == x
  {
    WrappedLayout(x);
    NoFenceAround("```json\n", x, "\n```");
    TaggedBlockBody("```json\n" + x + "\n```", x, |x| + 9);
  }
}
