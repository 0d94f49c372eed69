/** The compatibility scorer and best-match selection of the matching backend
    (backend/userMatching.js). Arithmetic is exact (`real`); the random term
    of `Math.random() * 10` is a parameter `r` with `0 <= r < 10`. */
module Scoring {
  import opened Util
  import opened Matching

  /** A match is accepted only with a score strictly above this. */
  const Threshold: int := 20

  // ---------------------------------------------------------------------------
  // Score components
  // ---------------------------------------------------------------------------

  /** `user1.practiceGoals.filter(goal => user2.practiceGoals.includes(goal))` */
  function Common(g1: seq<string>, g2: seq<string>): seq<string>
  {
    if g1 == [] then []
    else if g1[0] in g2 then [g1[0]] + Common(g1[1..], g2)
    else Common(g1[1..], g2)
  }

  /** The common goals are the goals of the first list that the second one
      also holds, in the first list's order. */
  lemma {:induction false} CommonKeeps(g1: seq<string>, g2: seq<string>)
    ensures forall x :: x in Common(g1, g2) <==> x in g1 && x in g2
    ensures IsSubsequence(Common(g1, g2), g1)
    ensures |Common(g1, g2)| <= |g1|
  {
    if g1 != [] {
      CommonKeeps(g1[1..], g2);
      assert g1 == [g1[0]] + g1[1..];
      if g1[0] in g2 {
        assert Common(g1, g2)[1..] == Common(g1[1..], g2);
      } else {
        SubsequencePrepend(Common(g1[1..], g2), g1[1..], g1[0]);
      }
    }
  }

  function Max(a: int, b: int): int
  {
    if a >= b then a else b
  }

  /** The tech-interest term: 40 points for the same interest. */
  function TechTerm(a: Profile, b: Profile): real
  {
    if a.techInterest == b.techInterest then 40.0 else 0.0
  }

  /** A share of at most the whole, times 30, lies in [0, 30]. */
  lemma ShareBound(c: nat, m: nat)
    requires 0 < m && c <= m
    ensures 0.0 <= ((c as real) / (m as real)) * 30.0 <= 30.0
  {
    var q := (c as real) / (m as real);
    assert q * (m as real) == c as real;
    assert q <= 1.0;
  }

  /** The goal-overlap term: the common goals as a share of the longer list,
      times 30, and nothing when either list is empty. */
  function GoalTerm(g1: seq<string>, g2: seq<string>): (t: real)
    ensures 0.0 <= t <= 30.0
    ensures g1 == [] || g2 == [] ==> t == 0.0
  {
    if |g1| > 0 && |g2| > 0 then
      var c := |Common(g1, g2)|;
      var m := Max(|g1|, |g2|);
      CommonKeeps(g1, g2);
      ShareBound(c, m);
      ((c as real) / (m as real)) * 30.0
    else 0.0
  }

  /** A 10-point term for two equal, non-empty (truthy) strings. */
  function SameNonEmptyTerm(x: string, y: string): real
  {
    if x == y && x != [] && y != [] then 10.0 else 0.0
  }

  /** Everything of `calculateCompatibilityScore` except the random term. */
  function Deterministic(a: Profile, b: Profile): (d: real)
    ensures 0.0 <= d <= 90.0
  {
    TechTerm(a, b) + GoalTerm(a.practiceGoals, b.practiceGoals)
      + SameNonEmptyTerm(a.university, b.university)
      + SameNonEmptyTerm(a.year, b.year)
  }

  /** `Math.round`: the nearest integer, halves rounded up. */
  function Round(x: real): (n: int)
    ensures x - 0.5 < n as real <= x + 0.5
  {
    (x + 0.5).Floor
  }

  /** `calculateCompatibilityScore(a, b)` with `Math.random()` equal to
      `r / 10`. */
  function Score(a: Profile, b: Profile, r: real): (s: int)
    requires 0.0 <= r < 10.0
    ensures 0 <= s <= 100
    ensures Deterministic(a, b) + r - 0.5 < s as real <= Deterministic(a, b) + r + 0.5
  {
    Round(Deterministic(a, b) + r)
  }

  // ---------------------------------------------------------------------------
  // Properties of the scorer
  // ---------------------------------------------------------------------------

  /** Each term takes only the values the weighting rule allows. */
  lemma ComponentValues(a: Profile, b: Profile)
    ensures TechTerm(a, b) == 40.0 <==> a.techInterest == b.techInterest
    ensures TechTerm(a, b) == 0.0 <==> a.techInterest != b.techInterest
    ensures SameNonEmptyTerm(a.university, b.university) == 10.0
      <==> a.university == b.university && a.university != []
    ensures SameNonEmptyTerm(a.university, b.university) in {0.0, 10.0}
    ensures SameNonEmptyTerm(a.year, b.year) == 10.0 <==> a.year == b.year && a.year != []
    ensures SameNonEmptyTerm(a.year, b.year) in {0.0, 10.0}
  {
  }

  ghost function Elems(s: seq<string>): set<string>
  {
    set x | x in s
  }

  /** A duplicate-free list has as many distinct elements as entries. */
  lemma {:induction false} DistinctCard(s: seq<string>)
    requires NoDups(s)
    ensures |Elems(s)| == |s|
  {
    if s != [] {
      assert s == [s[0]] + s[1..];
      NoDupsCons(s[0], s[1..]);
      DistinctCard(s[1..]);
      assert Elems(s) == {s[0]} + Elems(s[1..]);
    }
  }

  /** Filtering a duplicate-free list keeps it duplicate-free. */
  lemma {:induction false} CommonNoDups(g1: seq<string>, g2: seq<string>)
    requires NoDups(g1)
    ensures NoDups(Common(g1, g2))
  {
    if g1 != [] {
      var t := g1[1..];
      assert g1 == [g1[0]] + t;
      NoDupsCons(g1[0], t);
      CommonNoDups(t, g2);
      if g1[0] in g2 {
        CommonKeeps(t, g2);
        NoDupsCons(g1[0], Common(t, g2));
      }
    }
  }

  /** For a duplicate-free first list, the number of common goals is the size
      of the intersection of the two goal sets. */
  lemma CommonCount(g1: seq<string>, g2: seq<string>)
    requires NoDups(g1)
    ensures |Common(g1, g2)| == |Elems(g1) * Elems(g2)|
  {
    CommonKeeps(g1, g2);
    CommonNoDups(g1, g2);
    DistinctCard(Common(g1, g2));
    assert Elems(Common(g1, g2)) == Elems(g1) * Elems(g2);
  }

  /** For duplicate-free goal lists the deterministic part of the score does
      not depend on which user comes first. */
  lemma DeterministicSymmetric(a: Profile, b: Profile)
    requires NoDups(a.practiceGoals) && NoDups(b.practiceGoals)
    ensures Deterministic(a, b) == Deterministic(b, a)
  {
    CommonCount(a.practiceGoals, b.practiceGoals);
    CommonCount(b.practiceGoals, a.practiceGoals);
    assert Elems(a.practiceGoals) * Elems(b.practiceGoals)
      == Elems(b.practiceGoals) * Elems(a.practiceGoals);
  }

  /** Without the duplicate-free condition the goal term is asymmetric: the
      filter runs over the first user's list only. */
  lemma GoalTermAsymmetricWithDuplicates()
    ensures GoalTerm(["x", "x"], ["x"]) == 30.0
    ensures GoalTerm(["x"], ["x", "x"]) == 15.0
  {
    assert Common(["x", "x"], ["x"]) == ["x", "x"] by {
      assert ["x", "x"][1..] == ["x"];
      assert ["x"][1..] == [];
    }
    assert Common(["x"], ["x", "x"]) == ["x"] by {
      assert ["x"][1..] == [];
    }
  }

  /** Filtering a list by a list that holds all its goals keeps it whole. */
  lemma {:induction false} CommonAll(g1: seq<string>, g2: seq<string>)
    requires forall x :: x in g1 ==> x in g2
    ensures Common(g1, g2) == g1
  {
    if g1 != [] {
      CommonAll(g1[1..], g2);
    }
  }

  /** Two users with the same complete profile earn every deterministic point,
      so any value of the random term accepts the match. */
  lemma IdenticalProfilesAccepted(a: Profile, r: real)
    requires 0.0 <= r < 10.0
    requires a.practiceGoals != [] && a.university != [] && a.year != []
    ensures Deterministic(a, a) == 90.0
    ensures Score(a, a, r) > Threshold
  {
    var g := a.practiceGoals;
    assert GoalTerm(g, g) == 30.0 by {
      CommonAll(g, g);
      FullShare(|g|);
    }
  }

  /** Arithmetic helper of `IdenticalProfilesAccepted`: a full share of the
      goals is worth the whole 30 points. */
  lemma FullShare(n: int)
    requires n > 0
    ensures ((n as real) / (n as real)) * 30.0 == 30.0
  {
  }

  // ---------------------------------------------------------------------------
  // Best-match selection
  // ---------------------------------------------------------------------------

  /** The random terms drawn for a list of candidates. */
  predicate RandomTerms(rs: seq<real>)
  {
    forall i :: 0 <= i < |rs| ==> 0.0 <= rs[i] < 10.0
  }

  /** `potentialMatches.map(match => ({...match, score}))`: one score per
      candidate. */
  function Scores(current: Profile, cands: seq<WaitingUser>, rs: seq<real>): (ss: seq<int>)
    requires |rs| == |cands| && RandomTerms(rs)
    ensures |ss| == |cands|
    ensures forall i :: 0 <= i < |cands| ==> ss[i] == Score(current, cands[i].profile, rs[i])
  {
    if cands == [] then []
    else [Score(current, cands[0].profile, rs[0])] + Scores(current, cands[1..], rs[1..])
  }

  /** The first entry of the list after a stable sort by decreasing score: the
      earliest position holding the largest score. */
  function FirstMaxIndex(ss: seq<int>): (k: nat)
    requires ss != []
    ensures k < |ss|
    ensures forall j :: 0 <= j < |ss| ==> ss[j] <= ss[k]
    ensures forall j :: 0 <= j < k ==> ss[j] < ss[k]
  {
    if |ss| == 1 then 0
    else
      var k' := FirstMaxIndex(ss[1..]);
      if ss[0] >= ss[1..][k'] then 0 else k' + 1
  }

  /** A best match: the candidate's position, the candidate and its score. */
  datatype Match = Match(index: nat, user: WaitingUser, score: int)

  /** The choice `findBestMatch` makes among the given candidates. */
  function BestAmong(current: Profile, cands: seq<WaitingUser>, rs: seq<real>): (m: Option<Match>)
    requires |rs| == |cands| && RandomTerms(rs)
    ensures m.None? <==>
      cands == [] || forall i :: 0 <= i < |cands| ==> Scores(current, cands, rs)[i] <= Threshold
    ensures m.Some? ==>
      && m.value.index < |cands|
      && m.value.user == cands[m.value.index]
      && m.value.score == Score(current, m.value.user.profile, rs[m.value.index])
      && m.value.score > Threshold
      && (forall j :: 0 <= j < |cands| ==> Scores(current, cands, rs)[j] <= m.value.score)
      && (forall j :: 0 <= j < m.value.index ==> Scores(current, cands, rs)[j] < m.value.score)
  {
    if cands == [] then None
    else
      var ss := Scores(current, cands, rs);
      var k := FirstMaxIndex(ss);
      if ss[k] > Threshold then Some(Match(k, cands[k], ss[k])) else None
  }

  /** `findBestMatch(currentUser, roomId)` over the waiting pool `pool`, with
      one random term per potential match. */
  function FindBestMatch(pool: seq<WaitingUser>, current: WaitingUser, roomId: string, rs: seq<real>): (m: Option<Match>)
    requires |rs| == |PotentialMatches(pool, current, roomId)| && RandomTerms(rs)
    ensures m.Some? ==>
      && m.value.user in pool
      && m.value.user.roomId == roomId
      && m.value.user.status == Waiting
      && m.value.user.socketId != current.socketId
      && m.value.score > Threshold
    ensures PotentialMatches(pool, current, roomId) == [] ==> m.None?
  {
    var cands := PotentialMatches(pool, current, roomId);
    var m := BestAmong(current.profile, cands, rs);
    assert m.Some? ==> cands[m.value.index] in cands;
    m
  }
}
