/** The JavaScript string built-ins the core relies on, over Dafny strings (`seq<char>`):
    the `\s` character class and `String.prototype.trim` (both use ECMAScript's WhiteSpace and
    LineTerminator code points), and `Array.prototype.join` with the `", "` separator, together
    with the split that undoes it. */
module Text {
  import opened Optional

  /** ECMAScript white space and line terminators: what `\s` matches and what `trim` removes.
      All of them lie in the Basic Multilingual Plane, and a backtick is not one of them. */
  predicate IsSpace(c: char)
    ensures IsSpace(c) ==> (c as int) < 0x1_0000 && c != '`'
  {
    || c == '\t' || c == '\n' || c == '\U{000B}' || c == '\U{000C}' || c == '\r'
    || c == ' ' || c == '\U{00A0}' || c == '\U{1680}'
    || ('\U{2000}' <= c <= '\U{200A}')
    || c == '\U{2028}' || c == '\U{2029}' || c == '\U{202F}' || c == '\U{205F}'
    || c == '\U{3000}' || c == '\U{FEFF}'
  }

  /** Every character of `s` is white space (true of the empty string). */
  predicate AllSpace(s: string) {
    forall i :: 0 <= i < |s| ==> IsSpace(s[i])
  }

  /** All of s[lo..hi] is white space. */
  predicate SpaceBetween(s: string, lo: int, hi: int) {
    0 <= lo <= hi <= |s| && forall k :: lo <= k < hi ==> IsSpace(s[k])
  }

  /** The end of the run of white space that starts at i. */
  function SkipSpace(s: string, i: nat): (r: nat)
    requires i <= |s|
    decreases |s| - i
    ensures i <= r <= |s| && SpaceBetween(s, i, r)
    ensures r < |s| ==> !IsSpace(s[r])
  {
    if i < |s| && IsSpace(s[i]) then SkipSpace(s, i + 1) else i
  }

  /** The start of the run of white space that ends at k, not reaching back before b. */
  function TrailStart(s: string, b: nat, k: nat): (r: nat)
    requires b <= k <= |s|
    decreases k
    ensures b <= r <= k && SpaceBetween(s, r, k)
    ensures r > b ==> !IsSpace(s[r - 1])
  {
    if k > b && IsSpace(s[k - 1]) then TrailStart(s, b, k - 1) else k
  }

  /** The run of white space from e is exactly the one up to k. */
  lemma SkipSpaceExact(s: string, e: nat, k: nat)
    requires SpaceBetween(s, e, k)
    requires k < |s| ==> !IsSpace(s[k])
    ensures SkipSpace(s, e) == k
  {
  }

  /** The run of white space before k starts exactly at e. */
  lemma TrailStartExact(s: string, b: nat, e: nat, k: nat)
    requires b <= e && SpaceBetween(s, e, k)
    requires e > b ==> !IsSpace(s[e - 1])
    ensures TrailStart(s, b, k) == e
  {
  }

  /** `String.prototype.trim`: the text between the leading and the trailing white space.
      It neither starts nor ends with white space; TrimSlice and TrimBlank say which slice of
      `s` it is. */
  function Trim(s: string): (r: string)
    ensures r != [] ==> !IsSpace(r[0]) && !IsSpace(r[|r| - 1])
  {
    var b := SkipSpace(s, 0);
    s[b..TrailStart(s, b, |s|)]
  }

  /** `s.trim() === ''`. */
  predicate IsBlank(s: string) {
    Trim(s) == ""
  }

  /** The trimmed slice is determined by where the white space stops on either side. */
  lemma TrimSlice(s: string, b: nat, e: nat)
    requires b <= e <= |s| && SpaceBetween(s, 0, b) && SpaceBetween(s, e, |s|)
    requires b < e ==> !IsSpace(s[b]) && !IsSpace(s[e - 1])
    ensures Trim(s) == s[b..e]
  {
    if b == e {
      SkipSpaceExact(s, 0, |s|);
      TrailStartExact(s, |s|, |s|, |s|);
    } else {
      SkipSpaceExact(s, 0, b);
      TrailStartExact(s, b, e, |s|);
    }
  }

  /** A slice of a slice is a slice of the original. */
  lemma SliceEq(s: string, t: nat, k: nat, lo: nat, hi: nat)
    requires t <= lo <= hi <= k <= |s|
    ensures s[t..k][lo - t..hi - t] == s[lo..hi]
  {
    var v := s[t..k][lo - t..hi - t];
    assert forall j :: 0 <= j < |v| ==> v[j] == s[lo + j];
  }
  /** White space of the text is white space of any slice holding it. */
  lemma SpaceInSlice(s: string, t: nat, k: nat, lo: nat, hi: nat)
    requires t <= lo <= hi <= k <= |s| && SpaceBetween(s, lo, hi)
    ensures SpaceBetween(s[t..k], lo - t, hi - t)
  {
    var u := s[t..k];
    forall j | lo - t <= j < hi - t ensures IsSpace(u[j]) {
      assert u[j] == s[t + j];
    }
  }
  /** Trimming the slice s[t..k] leaves s[b..m] when the white space at the ends of the
      slice stops at b and starts at m. */
  lemma TrimOfSlice(u: string, s: string, t: nat, b: nat, m: nat, k: nat)
    requires t <= b <= m <= k <= |s| && u == s[t..k]
    requires SpaceBetween(u, 0, b - t) && SpaceBetween(u, m - t, |u|)
    requires b < m ==> !IsSpace(s[b]) && !IsSpace(s[m - 1])
    ensures Trim(u) == s[b..m]
  {
    SliceEq(s, t, k, b, m);
    if b < m {
      assert u[b - t] == s[b] && u[m - t - 1] == s[m - 1];
    }
    TrimSlice(u, b - t, m - t);
  }

  lemma TrimOfSpace(s: string)
    requires AllSpace(s)
    ensures Trim(s) == ""
  {
    SkipSpaceExact(s, 0, |s|);
  }

  /** A string is blank exactly when it is all white space. */
  lemma TrimBlank(s: string)
    ensures IsBlank(s) <==> AllSpace(s)
  {
    if AllSpace(s) {
      TrimOfSpace(s);
    } else {
      var j :| 0 <= j < |s| && !IsSpace(s[j]);
      var b := SkipSpace(s, 0);
      assert b <= j;
      assert TrailStart(s, b, |s|) > b;
    }
  }

  /** The separator `Array.prototype.join` is called with. */
  const ListSeparator: string := ", "

  /** `xs.join(', ')`: the elements in order with the separator between neighbours. It is
      empty for no elements and starts with the first element otherwise; JoinAppend gives the
      other end. */
  function Join(xs: seq<string>): (r: string)
    ensures |xs| == 0 ==> r == ""
    ensures |xs| > 0 ==> StartsWith(r, xs[0])
  {
    if |xs| == 0 then ""
    else if |xs| == 1 then xs[0]
    else
      var rest := Join(xs[1..]);
      assert (xs[0] + ListSeparator + rest)[..|xs[0]|] == xs[0];
      xs[0] + ListSeparator + rest
  }

  /** Appending an element to a non-empty list appends the separator and that element to the
      join, as the engine builds it from left to right. */
  lemma {:induction false} JoinAppend(xs: seq<string>, x: string)
    requires |xs| > 0
    ensures Join(xs + [x]) == Join(xs) + ListSeparator + x
  {
    var ys := xs + [x];
    if |xs| > 1 {
      assert ys[1..] == xs[1..] + [x];
      JoinAppend(xs[1..], x);
    }
  }

  /** `s` starts with `prefix`. */
  predicate StartsWith(s: string, prefix: string) {
    |prefix| <= |s| && s[..|prefix|] == prefix
  }

  /** The first position at or after `from` where the separator starts. */
  function SeparatorFrom(s: string, from: nat): (r: Option<nat>)
    decreases |s| - from
    ensures r.Some? ==> from <= r.value && r.value + 2 <= |s|
                        && s[r.value] == ',' && s[r.value + 1] == ' '
  {
    if from + 2 > |s| then None
    else if s[from] == ',' && s[from + 1] == ' ' then Some(from)
    else SeparatorFrom(s, from + 1)
  }

  /** Cuts `s` at every separator, left to right: the inverse of Join. */
  function Split(s: string): seq<string>
    decreases |s|
  {
    match SeparatorFrom(s, 0)
    case None => [s]
    case Some(k) => [s[..k]] + Split(s[k + 2..])
  }

  lemma {:induction false} SeparatorAbsent(s: string, from: nat)
    requires forall i :: from <= i < |s| ==> s[i] != ','
    ensures SeparatorFrom(s, from) == None
    decreases |s| - from
  {
    if from + 2 <= |s| {
      SeparatorAbsent(s, from + 1);
    }
  }

  lemma {:induction false} SeparatorAfter(x: string, rest: string, from: nat)
    requires from <= |x|
    requires forall i :: 0 <= i < |x| ==> x[i] != ','
    ensures SeparatorFrom(x + ListSeparator + rest, from) == Some(|x|)
    decreases |x| - from
  {
    var s := x + ListSeparator + rest;
    if from < |x| {
      assert s[from] == x[from];
      SeparatorAfter(x, rest, from + 1);
    } else {
      assert s[from] == ',' && s[from + 1] == ' ';
    }
  }

  /** Splitting a join gives back the list, provided no element holds a comma. */
  lemma {:induction false} SplitJoin(xs: seq<string>)
    requires |xs| > 0
    requires forall k, i :: 0 <= k < |xs| && 0 <= i < |xs[k]| ==> xs[k][i] != ','
    ensures Split(Join(xs)) == xs
  {
    if |xs| == 1 {
      SeparatorAbsent(xs[0], 0);
    } else {
      var s := Join(xs);
      var rest := Join(xs[1..]);
      assert s == xs[0] + ListSeparator + rest;
      SeparatorAfter(xs[0], rest, 0);
      assert s[..|xs[0]|] == xs[0];
      assert s[|xs[0]| + 2..] == rest;
      assert forall k, i :: 0 <= k < |xs[1..]| && 0 <= i < |xs[1..][k]| ==> xs[1..][k][i] != ',' by {
        forall k, i | 0 <= k < |xs[1..]| && 0 <= i < |xs[1..][k]| ensures xs[1..][k][i] != ',' {
          assert xs[1..][k] == xs[k + 1];
        }
      }
      SplitJoin(xs[1..]);
      assert [xs[0]] + xs[1..] == xs;
    }
  }
}
