/** The splice behind every override edit: `replace_first_matching`. */
module Patching {
  import opened Replies

  datatype Candidate = Candidate(anchor: string, replacement: string)

  datatype Patch = Patched(content: string) | NoMatch | WrongCount(found: nat)

  // ----- Substrings -----

  predicate At(s: string, i: nat, a: string) {
    i + |a| <= |s| && s[i..i + |a|] == a
  }

  predicate Contains(s: string, a: string) {
    exists i :: 0 <= i <= |s| && At(s, i, a)
  }

  /** The number of non-overlapping occurrences, scanning from the left; the empty string
      occurs before every character and at the end. */
  function Count(s: string, a: string): nat {
    if a == "" then |s| + 1
    else if |s| < |a| then 0
    else if s[..|a|] == a then 1 + Count(s[|a|..], a)
    else Count(s[1..], a)
  }

  /** Every non-overlapping occurrence replaced, scanning from the left. */
  function ReplaceAll(s: string, a: string, r: string): string {
    if a == "" then if s == "" then r else r + [s[0]] + ReplaceAll(s[1..], a, r)
    else if |s| < |a| then s
    else if s[..|a|] == a then r + ReplaceAll(s[|a|..], a, r)
    else [s[0]] + ReplaceAll(s[1..], a, r)
  }

  /** The first candidate whose replacement or anchor is present decides. */
  function ReplaceFirstMatching(content: string, candidates: seq<Candidate>, expected: Option<nat>): Patch {
    if candidates == [] then NoMatch
    else if Contains(content, candidates[0].replacement) then Patched(content)
    else if !Contains(content, candidates[0].anchor) then
      ReplaceFirstMatching(content, candidates[1..], expected)
    else
      var found := Count(content, candidates[0].anchor);
      if expected.Some? && found != expected.value then WrongCount(found)
      else Patched(ReplaceAll(content, candidates[0].anchor, candidates[0].replacement))
  }

  // ----- Splitting at the sites -----

  /** The text between the sites, cut at the leftmost site each time. */
  function Pieces(s: string, a: string): (ps: seq<string>)
    requires a != ""
    ensures |ps| > 0
  {
    if |s| < |a| then [s]
    else if s[..|a|] == a then [""] + Pieces(s[|a|..], a)
    else
      var rest := Pieces(s[1..], a);
      [[s[0]] + rest[0]] + rest[1..]
  }

  function Join(ps: seq<string>, sep: string): string
    requires |ps| > 0
  {
    if |ps| == 1 then ps[0] else ps[0] + sep + Join(ps[1..], sep)
  }

  /** `ps` are the pieces of `s`: joined by the anchor they give `s`, no piece holds the
      anchor, and each site is the leftmost one after its piece. */
  predicate Splits(s: string, a: string, ps: seq<string>) {
    && |ps| > 0
    && s == Join(ps, a)
    && (forall i :: 0 <= i < |ps| ==> !Contains(ps[i], a))
    && (forall i, k :: 0 <= i < |ps| - 1 && 0 <= k < |ps[i]| ==> !At(ps[i] + a, k, a))
  }

  lemma ContainsPart(s: string, t: string, u: string, a: string)
    requires Contains(t, a)
    ensures Contains(s + t + u, a)
  {
    var i :| 0 <= i <= |t| && At(t, i, a);
    assert (s + t + u)[|s| + i..|s| + i + |a|] == t[i..i + |a|];
    assert At(s + t + u, |s| + i, a);
  }

  lemma AtShift(c: char, t: string, k: nat, a: string)
    requires k > 0
    ensures At([c] + t, k, a) <==> At(t, k - 1, a)
  {
    if k + |a| <= |t| + 1 {
      assert ([c] + t)[k..k + |a|] == t[k - 1..k - 1 + |a|];
    }
  }

  lemma NotInLonger(c: char, t: string, a: string)
    requires !Contains(t, a) && !At([c] + t, 0, a)
    ensures !Contains([c] + t, a)
  {
    forall k: nat ensures !At([c] + t, k, a) {
      if k > 0 {
        AtShift(c, t, k, a);
      }
    }
  }

  lemma AtPrefix(s: string, t: string, k: nat, a: string)
    requires k + |a| <= |s|
    ensures At(s + t, k, a) <==> At(s, k, a)
  {
    assert (s + t)[k..k + |a|] == s[k..k + |a|];
  }

  lemma JoinPrepend(c: char, ps: seq<string>, sep: string)
    requires |ps| > 0
    ensures Join([[c] + ps[0]] + ps[1..], sep) == [c] + Join(ps, sep)
  {
    if |ps| > 1 {
      var qs := [[c] + ps[0]] + ps[1..];
      assert qs[1..] == ps[1..];
      assert [c] + (ps[0] + sep + Join(ps[1..], sep)) == [c] + ps[0] + sep + Join(ps[1..], sep);
    }
  }

  lemma {:induction false} PiecesSplit(s: string, a: string)
    requires a != ""
    ensures Splits(s, a, Pieces(s, a))
  {
    if |s| < |a| {
    } else if s[..|a|] == a {
      var tail := s[|a|..];
      PiecesSplit(tail, a);
      assert ([""] + Pieces(tail, a))[1..] == Pieces(tail, a);
      assert s == "" + a + tail;
    } else {
      PiecesSplit(s[1..], a);
      LongerPiece(s, a, Pieces(s[1..], a));
    }
  }

  lemma LongerPiece(s: string, a: string, rest: seq<string>)
    requires a != "" && |s| > 0 && !At(s, 0, a) && Splits(s[1..], a, rest)
    ensures Splits(s, a, [[s[0]] + rest[0]] + rest[1..])
  {
    var head := [s[0]] + rest[0];
    var ps := [head] + rest[1..];
    JoinPrepend(s[0], rest, a);
    assert s == [s[0]] + s[1..];
    if |rest| == 1 {
      NotInLonger(s[0], rest[0], a);
    } else {
      var tail := Join(rest[1..], a);
      assert s == (head + a) + tail;
      forall k | 0 <= k < |head| ensures !At(head + a, k, a) {
        if k == 0 {
          AtPrefix(head + a, tail, 0, a);
        } else {
          AtShift(s[0], rest[0] + a, k, a);
          assert head + a == [s[0]] + (rest[0] + a);
        }
      }
      assert s == head + (a + tail);
      if At(head, 0, a) {
        AtPrefix(head, a + tail, 0, a);
      }
      NotInLonger(s[0], rest[0], a);
    }
  }

  /** Counting and replacing agree with the split: the result is the same pieces, joined
      by the replacement. */
  lemma {:induction false} SpliceIsExact(s: string, a: string, r: string)
    requires a != ""
    ensures Count(s, a) == |Pieces(s, a)| - 1
    ensures ReplaceAll(s, a, r) == Join(Pieces(s, a), r)
  {
    if |s| < |a| {
    } else if s[..|a|] == a {
      var tail := s[|a|..];
      SpliceIsExact(tail, a, r);
      assert ([""] + Pieces(tail, a))[1..] == Pieces(tail, a);
      assert "" + r + Join(Pieces(tail, a), r) == r + Join(Pieces(tail, a), r);
    } else {
      SpliceIsExact(s[1..], a, r);
      JoinPrepend(s[0], Pieces(s[1..], a), r);
    }
  }

  /** The characters of a string, one by one, and an empty piece at the end. */
  function Singles(s: string): (ps: seq<string>)
    ensures |ps| == |s| + 1 && ps[|s|] == "" && forall k :: 0 <= k < |s| ==> ps[k] == [s[k]]
  {
    if s == "" then [""] else [[s[0]]] + Singles(s[1..])
  }

  /** The empty anchor is found before every character and at the end, and the replacement is
      put in all these places. */
  lemma {:induction false} EmptyAnchorIsEverywhere(s: string, r: string)
    ensures Count(s, "") == |Singles(s)|
    ensures ReplaceAll(s, "", r) == r + Join(Singles(s), r)
  {
    if s != "" {
      EmptyAnchorIsEverywhere(s[1..], r);
      var rest := Singles(s[1..]);
      assert Singles(s)[0] == [s[0]] && Singles(s)[1..] == rest;
      assert Join(Singles(s), r) == [s[0]] + r + Join(rest, r);
      assert ReplaceAll(s, "", r) == r + [s[0]] + (r + Join(rest, r));
      assert Count(s, "") == |Singles(s)|;
      hide *;
      RegroupFour(r, [s[0]], Join(rest, r));
    }
  }

  lemma RegroupFour(r: string, a: string, b: string)
    ensures r + a + (r + b) == r + (a + r + b)
  {
  }

  lemma {:induction false} JoinLength(ps: seq<string>, a: string, r: string)
    requires |ps| > 0
    ensures |Join(ps, r)| == |Join(ps, a)| + (|ps| - 1) * (|r| - |a|)
  {
    if |ps| > 1 {
      JoinLength(ps[1..], a, r);
    }
  }

  lemma {:induction false} JoinContains(ps: seq<string>, r: string)
    requires |ps| > 1
    ensures Contains(Join(ps, r), r)
  {
    var rest := Join(ps[1..], r);
    assert At(r, 0, r);
    ContainsPart(ps[0], r, rest, r);
  }

  lemma CountPositive(s: string, a: string)
    requires a != ""
    ensures Contains(s, a) <==> Count(s, a) > 0
  {
    PiecesSplit(s, a);
    SpliceIsExact(s, a, a);
    var ps := Pieces(s, a);
    if |ps| == 1 {
      assert s == ps[0];
    } else {
      JoinContains(ps, a);
    }
  }

  // ----- What an edit does -----

  /** The candidate that decides: the first whose replacement or anchor is present. */
  function Deciding(content: string, candidates: seq<Candidate>): (j: nat)
    ensures j <= |candidates|
    ensures j < |candidates| ==> Contains(content, candidates[j].replacement) || Contains(content, candidates[j].anchor)
    ensures forall i :: 0 <= i < j ==> !Contains(content, candidates[i].replacement) && !Contains(content, candidates[i].anchor)
  {
    if candidates == [] || Contains(content, candidates[0].replacement) || Contains(content, candidates[0].anchor) then 0
    else 1 + Deciding(content, candidates[1..])
  }

  predicate NonEmptyAnchors(candidates: seq<Candidate>) {
    forall c <- candidates :: c.anchor != ""
  }

  lemma {:induction false} DecidedBy(content: string, candidates: seq<Candidate>, expected: Option<nat>)
    ensures var j := Deciding(content, candidates);
            ReplaceFirstMatching(content, candidates, expected) ==
            if j == |candidates| then NoMatch
            else ReplaceFirstMatching(content, [candidates[j]], expected)
  {
    if candidates != [] && !Contains(content, candidates[0].replacement) && !Contains(content, candidates[0].anchor) {
      DecidedBy(content, candidates[1..], expected);
    }
  }

  /** An edit that is not already present replaces precisely the non-overlapping sites of
      the deciding anchor, whose number is the expected one, and nothing else. */
  lemma EditIsExact(content: string, candidates: seq<Candidate>, expected: Option<nat>) returns (ps: seq<string>)
    requires NonEmptyAnchors(candidates)
    requires ReplaceFirstMatching(content, candidates, expected).Patched?
    requires var j := Deciding(content, candidates); j < |candidates| && !Contains(content, candidates[j].replacement)
    ensures var c := candidates[Deciding(content, candidates)];
            var result := ReplaceFirstMatching(content, candidates, expected).content;
            && ps == Pieces(content, c.anchor) && Splits(content, c.anchor, ps)
            && |ps| >= 2
            && (expected.Some? ==> |ps| - 1 == expected.value)
            && result == Join(ps, c.replacement)
            && |result| == |content| + (|ps| - 1) * (|c.replacement| - |c.anchor|)
            && (expected == Some(1) ==> content == ps[0] + c.anchor + ps[1] && result == ps[0] + c.replacement + ps[1])
  {
    DecidedBy(content, candidates, expected);
    var c := candidates[Deciding(content, candidates)];
    ps := Pieces(content, c.anchor);
    PiecesSplit(content, c.anchor);
    SpliceIsExact(content, c.anchor, c.replacement);
    CountPositive(content, c.anchor);
    JoinLength(ps, c.anchor, c.replacement);
  }

  /** The edit fails closed: it raises exactly when nothing known is present, or when the
      deciding anchor stands without its replacement at an unexpected number of sites. */
  lemma RaisesExactlyWhen(content: string, candidates: seq<Candidate>, expected: Option<nat>)
    ensures var j := Deciding(content, candidates);
            !ReplaceFirstMatching(content, candidates, expected).Patched? <==>
            (j == |candidates| ||
             (!Contains(content, candidates[j].replacement) && expected.Some? &&
              Count(content, candidates[j].anchor) != expected.value))
  {
    DecidedBy(content, candidates, expected);
  }

  /** Text is a fixed point of the edit exactly when some replacement is present and no
      earlier candidate's anchor is. */
  lemma StableExactlyWhen(content: string, candidates: seq<Candidate>, expected: Option<nat>)
    requires NonEmptyAnchors(candidates)
    ensures ReplaceFirstMatching(content, candidates, expected) == Patched(content) <==>
            exists j :: 0 <= j < |candidates| && Contains(content, candidates[j].replacement) &&
                        forall i :: 0 <= i < j ==> !Contains(content, candidates[i].anchor)
  {
    DecidedBy(content, candidates, expected);
    var j := Deciding(content, candidates);
    if j < |candidates| && !Contains(content, candidates[j].replacement) {
      var c := candidates[j];
      PiecesSplit(content, c.anchor);
      SpliceIsExact(content, c.anchor, c.replacement);
      CountPositive(content, c.anchor);
      JoinContains(Pieces(content, c.anchor), c.replacement);
    }
  }

  // ----- Rendering again -----

  function Tail(s: string, n: nat): string {
    if |s| <= n then s else s[|s| - n..]
  }

  function Head(s: string, n: nat): string {
    if |s| <= n then s else s[..n]
  }

  /** The `t`-th inserted replacement, with at most `n` characters of what the edit puts
      before and after it. */
  function Neighbourhood(ps: seq<string>, r: string, t: nat, n: nat): string
    requires t + 1 < |ps|
  {
    Tail(Join(ps[..t + 1], r), n) + r + Head(Join(ps[t + 1..], r), n)
  }

  predicate ReadsAt(ps: seq<string>, r: string, t: nat, text: string)
    requires t + 1 < |ps| && text != ""
  {
    Contains(Neighbourhood(ps, r, t, |text| - 1), text)
  }

  /** `text` reads across some replacement inserted between the pieces. */
  predicate ReadsAcross(ps: seq<string>, r: string, text: string) {
    text != "" && exists t :: 0 <= t < |ps| - 1 && ReadsAt(ps, r, t, text)
  }

  lemma {:induction false} JoinAt(ps: seq<string>, r: string, t: nat)
    requires t + 1 < |ps|
    ensures Join(ps, r) == Join(ps[..t + 1], r) + r + Join(ps[t + 1..], r)
  {
    if t == 0 {
      assert ps[..1] == [ps[0]];
    } else {
      var rest := ps[1..];
      JoinAt(rest, r, t - 1);
      assert rest[..t] == ps[..t + 1][1..] && rest[t..] == ps[t + 1..];
      Regroup(ps[0], r, Join(rest[..t], r), Join(rest[t..], r));
    }
  }

  lemma Regroup(a: string, r: string, b: string, c: string)
    ensures a + r + (b + r + c) == (a + r + b) + r + c
  {
  }

  lemma NeighbourhoodInside(left: string, r: string, right: string, n: nat, text: string)
    requires Contains(Tail(left, n) + r + Head(right, n), text)
    ensures Contains(left + r + right, text)
  {
    var u := left[..|left| - |Tail(left, n)|];
    var v := right[|Head(right, n)|..];
    var window := Tail(left, n) + r + Head(right, n);
    assert left == u + Tail(left, n) && right == Head(right, n) + v;
    assert left + r + right == u + window + v;
    hide Contains, Tail, Head;
    ContainsPart(u, window, v, text);
  }

  lemma SliceOfSlice(s: string, lo: nat, hi: nat, a: nat, b: nat)
    requires lo <= hi <= |s| && a <= b <= hi - lo
    ensures s[lo..hi][a..b] == s[lo + a..lo + b]
  {
    var whole, part := s[lo..hi], s[lo + a..lo + b];
    assert |whole[a..b]| == |part|;
    forall i | 0 <= i < b - a ensures whole[a..b][i] == part[i] {
      assert whole[a..b][i] == whole[a + i] == s[lo + a + i];
    }
  }

  /** A text that is in neither part can only cross the middle. */
  lemma CrossesMiddle(left: string, r: string, right: string, o: nat, text: string)
    requires text != "" && At(left + r + right, o, text)
    requires o < |left| + |r| && |left| < o + |text|
    ensures Contains(Tail(left, |text| - 1) + r + Head(right, |text| - 1), text)
  {
    var n := |text| - 1;
    var window := Tail(left, n) + r + Head(right, n);
    var skip := |left| - |Tail(left, n)|;
    assert window == (left + r + right)[skip..skip + |window|];
    assert 0 <= o - skip && o - skip + |text| <= |window|;
    SliceOfSlice(left + r + right, skip, skip + |window|, o - skip, o - skip + |text|);
    assert At(window, o - skip, text);
  }

  lemma LongerLeft(x: string, left: string, r: string, right: string, n: nat, text: string)
    requires Contains(Tail(left, n) + r + Head(right, n), text)
    ensures Contains(Tail(x + left, n) + r + Head(right, n), text)
  {
    var u := Tail(x + left, n)[..|Tail(x + left, n)| - |Tail(left, n)|];
    assert Tail(x + left, n) == u + Tail(left, n);
    var window := Tail(left, n) + r + Head(right, n);
    assert Tail(x + left, n) + r + Head(right, n) == u + window + "";
    hide Contains, Tail, Head;
    ContainsPart(u, window, "", text);
  }

  /** What is in no piece reads across a replacement, or is not in the joined text at all. */
  lemma {:induction false} FoundOnlyAcross(ps: seq<string>, r: string, o: nat, text: string) returns (t: nat)
    requires |ps| > 0 && text != "" && At(Join(ps, r), o, text)
    requires forall i :: 0 <= i < |ps| ==> !Contains(ps[i], text)
    ensures t + 1 < |ps| && ReadsAt(ps, r, t, text)
    decreases |ps|
  {
    hide Contains, Tail, Head;
    if |ps| == 1 {
      FoundIn(ps[0], o, text);
      assert false;
    }
    var rest := Join(ps[1..], r);
    if o + |text| <= |ps[0]| {
      AtPrefix(ps[0], r + rest, o, text);
      assert ps[0] + (r + rest) == ps[0] + r + rest;
      FoundIn(ps[0], o, text);
    } else if o < |ps[0]| + |r| {
      t := 0;
      CrossesMiddle(ps[0], r, rest, o, text);
      assert ps[..1] == [ps[0]];
    } else {
      var p := |ps[0]| + |r|;
      assert Join(ps, r)[o..o + |text|] == rest[o - p..o - p + |text|];
      var s := FoundOnlyAcross(ps[1..], r, o - p, text);
      t := s + 1;
      assert ps[1..][..s + 1] == ps[..t + 1][1..] && ps[1..][s + 1..] == ps[t + 1..];
      LongerLeft(ps[0] + r, Join(ps[1..][..s + 1], r), r, Join(ps[t + 1..], r), |text| - 1, text);
    }
  }

  lemma FoundIn(s: string, o: nat, text: string)
    requires At(s, o, text)
    ensures Contains(s, text)
  {
  }

  lemma {:induction false} PieceInside(ps: seq<string>, a: string, i: nat, text: string)
    requires i < |ps| && Contains(ps[i], text)
    ensures Contains(Join(ps, a), text)
  {
    hide Contains;
    if |ps| == 1 {
    } else if i == 0 {
      assert Join(ps, a) == "" + ps[0] + (a + Join(ps[1..], a));
      ContainsPart("", ps[0], a + Join(ps[1..], a), text);
    } else {
      PieceInside(ps[1..], a, i - 1, text);
      assert Join(ps, a) == (ps[0] + a) + Join(ps[1..], a) + "";
      ContainsPart(ps[0] + a, Join(ps[1..], a), "", text);
    }
  }

  lemma ReadsAtInside(ps: seq<string>, r: string, t: nat, text: string)
    requires t + 1 < |ps| && text != "" && ReadsAt(ps, r, t, text)
    ensures Contains(Join(ps, r), text)
  {
    hide Contains, Tail, Head, Join;
    JoinAt(ps, r, t);
    NeighbourhoodInside(Join(ps[..t + 1], r), r, Join(ps[t + 1..], r), |text| - 1, text);
  }

  /** A text absent from the content is in the edited text exactly when it reads across a
      replacement. */
  lemma AppearsExactlyAcross(content: string, a: string, r: string, text: string)
    requires a != "" && text != "" && !Contains(content, text)
    ensures var ps := Pieces(content, a);
            Contains(Join(ps, r), text) <==> ReadsAcross(ps, r, text)
  {
    var ps := Pieces(content, a);
    PiecesSplit(content, a);
    hide Pieces, Join, ReadsAt;
    forall i | 0 <= i < |ps| ensures !Contains(ps[i], text) {
      if Contains(ps[i], text) {
        PieceInside(ps, a, i, text);
      }
    }
    if Contains(Join(ps, r), text) {
      var o: nat :| o <= |Join(ps, r)| && At(Join(ps, r), o, text);
      var t := FoundOnlyAcross(ps, r, o, text);
    }
    if ReadsAcross(ps, r, text) {
      var t :| 0 <= t < |ps| - 1 && ReadsAt(ps, r, t, text);
      ReadsAtInside(ps, r, t, text);
    }
  }

  /** Whether `text` can be read across what this edit inserts. */
  predicate Surfaces(content: string, c: Candidate, text: string)
    requires c.anchor != ""
  {
    ReadsAcross(Pieces(content, c.anchor), c.replacement, text)
  }

  /** Rendering again changes nothing exactly when the first render changed nothing either, or
      no earlier candidate's anchor comes to be read across an inserted replacement, up to an
      earlier candidate whose whole replacement does. With one candidate, always. */
  lemma IdempotentExactlyWhen(content: string, candidates: seq<Candidate>, expected: Option<nat>)
    requires NonEmptyAnchors(candidates)
    requires ReplaceFirstMatching(content, candidates, expected).Patched?
    ensures Deciding(content, candidates) < |candidates|
    ensures var result := ReplaceFirstMatching(content, candidates, expected).content;
            var j := Deciding(content, candidates);
            && (ReplaceFirstMatching(result, candidates, expected) == Patched(result) <==>
                  || Contains(content, candidates[j].replacement)
                  || exists k :: 0 <= k <= j && (k == j || Surfaces(content, candidates[j], candidates[k].replacement))
                                 && forall i :: 0 <= i < k ==> !Surfaces(content, candidates[j], candidates[i].anchor))
            && (|candidates| == 1 ==> ReplaceFirstMatching(result, candidates, expected) == Patched(result))
  {
    var result := ReplaceFirstMatching(content, candidates, expected).content;
    var j := Deciding(content, candidates);
    DecidedBy(content, candidates, expected);
    StableExactlyWhen(result, candidates, expected);
    var c := candidates[j];
    if Contains(content, c.replacement) {
      assert result == content;
    } else {
      var ps := EditIsExact(content, candidates, expected);
      JoinContains(ps, c.replacement);
      hide ReplaceFirstMatching, Contains, ReadsAcross, Deciding;
      forall i | 0 <= i < j
        ensures Contains(result, candidates[i].anchor) <==> Surfaces(content, c, candidates[i].anchor)
        ensures Contains(result, candidates[i].replacement) <==> Surfaces(content, c, candidates[i].replacement)
      {
        EmptyIsEverywhere(content);
        AppearsExactlyAcross(content, c.anchor, c.replacement, candidates[i].anchor);
        AppearsExactlyAcross(content, c.anchor, c.replacement, candidates[i].replacement);
      }
    }
  }

  lemma EmptyIsEverywhere(content: string)
    ensures Contains(content, "")
  {
    assert At(content, 0, "");
  }

  // ----- A condition on the candidates alone -----

  /** Shifted by `d`, the two texts overlap, and agree where they do. */
  predicate AlignsAt(a: string, r: string, d: int) {
    -|a| < d < |r| && forall x :: 0 <= x < |a| && 0 <= x + d < |r| ==> a[x] == r[x + d]
  }

  /** No candidate's anchor can share a character with the replacement of a later one. */
  ghost predicate Apart(candidates: seq<Candidate>) {
    forall i, j, d :: 0 <= i < j < |candidates| ==> !AlignsAt(candidates[i].anchor, candidates[j].replacement, d)
  }

  lemma AcrossMeansAligned(left: string, r: string, right: string, a: string) returns (d: int)
    requires a != "" && Contains(Tail(left, |a| - 1) + r + Head(right, |a| - 1), a) && r != ""
    ensures AlignsAt(a, r, d)
  {
    var l := Tail(left, |a| - 1);
    var window := l + r + Head(right, |a| - 1);
    var o :| 0 <= o <= |window| && At(window, o, a);
    d := o - |l|;
    forall x | 0 <= x < |a| && 0 <= x + d < |r| ensures a[x] == r[x + d] {
      assert window[o..o + |a|][x] == window[o + x];
    }
  }

  /** Candidates that keep apart make the edit idempotent on every content. */
  lemma ApartIsIdempotent(content: string, candidates: seq<Candidate>, expected: Option<nat>)
    requires NonEmptyAnchors(candidates) && Apart(candidates)
    requires ReplaceFirstMatching(content, candidates, expected).Patched?
    ensures var result := ReplaceFirstMatching(content, candidates, expected).content;
            ReplaceFirstMatching(result, candidates, expected) == Patched(result)
  {
    IdempotentExactlyWhen(content, candidates, expected);
    var j := Deciding(content, candidates);
    var c := candidates[j];
    if !Contains(content, c.replacement) {
      EmptyIsEverywhere(content);
      hide ReplaceFirstMatching, Deciding, Contains;
      forall i | 0 <= i < j ensures !Surfaces(content, c, candidates[i].anchor) {
        NeverSurfaces(content, c, candidates[i].anchor, candidates, i, j);
      }
    }
  }

  lemma NeverSurfaces(content: string, c: Candidate, a: string, candidates: seq<Candidate>, i: nat, j: nat)
    requires i < j < |candidates| && Apart(candidates) && c == candidates[j] && a == candidates[i].anchor
    requires c.anchor != "" && a != "" && c.replacement != ""
    ensures !Surfaces(content, c, a)
  {
    var ps := Pieces(content, c.anchor);
    forall t | 0 <= t < |ps| - 1 ensures !ReadsAt(ps, c.replacement, t, a) {
      if ReadsAt(ps, c.replacement, t, a) {
        var d := AcrossMeansAligned(Join(ps[..t + 1], c.replacement), c.replacement, Join(ps[t + 1..], c.replacement), a);
      }
    }
  }

  /** Two candidates that feed each other: rendering "c" gives "a", and rendering that
      again gives "bb". */
  lemma SecondRenderChangesText()
    ensures var candidates := [Candidate("a", "bb"), Candidate("c", "a")];
            && ReplaceFirstMatching("c", candidates, Some(1)) == Patched("a")
            && ReplaceFirstMatching("a", candidates, Some(1)) == Patched("bb")
  {
    var candidates := [Candidate("a", "bb"), Candidate("c", "a")];
    assert candidates[1..] == [Candidate("c", "a")];
    assert At("c", 0, "c") && At("a", 0, "a");
    assert forall i :: 0 <= i <= 1 ==> !At("c", i, "a") && !At("c", i, "bb") && !At("a", i, "bb");
    assert "c"[1..] == "" && "a"[1..] == "";
    assert Count("", "c") == 0 && Count("", "a") == 0;
    assert ReplaceAll("", "c", "a") == "" && ReplaceAll("", "a", "bb") == "";
  }
}
