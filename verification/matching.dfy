/** The matching service (`src/services/MatchingService.js`, and its older
    copy `services/MatchingService.js`, which shares the scoring and differs
    only in `findTopMatches`): a score for an ordered pair of profiles built
    from shared interests, complementary skills and word-set similarity of
    free-text fields, and a ranking of candidates by that score. */
module Matching {
  import opened Wrappers
  import opened Strings
  import opened Profiles
  import Seqs

  // ---------------------------------------------------------------------------
  // Word sets and text similarity
  // ---------------------------------------------------------------------------

  /** The characters of the regular-expression class `\w` (without the
      Unicode flag); `\W+` splits on runs of everything else. */
  predicate IsWordChar(c: char)
  {
    'a' <= c <= 'z' || 'A' <= c <= 'Z' || '0' <= c <= '9' || c == '_'
  }

  /** The longest prefix of word characters. */
  function WordPrefix(s: string): (r: string)
    ensures |r| <= |s| && r == s[..|r|]
    ensures forall i :: 0 <= i < |r| ==> IsWordChar(r[i])
    ensures |r| < |s| ==> !IsWordChar(s[|r|])
  {
    if s != [] && IsWordChar(s[0]) then [s[0]] + WordPrefix(s[1..]) else []
  }

  /** `w` is a maximal run of word characters of `s` starting at `k`: a
      non-empty piece of `s.split(/\W+/)`. */
  ghost predicate RunAt(s: string, w: string, k: int)
  {
    && OccursAt(s, w, k)
    && w != []
    && (forall i :: 0 <= i < |w| ==> IsWordChar(w[i]))
    && (k == 0 || !IsWordChar(s[k - 1]))
    && (k + |w| == |s| || !IsWordChar(s[k + |w|]))
  }

  ghost predicate IsPiece(s: string, w: string)
  {
    exists k :: RunAt(s, w, k)
  }

  /** The set of pieces of `s.split(/\W+/)` longer than three characters:
      exactly the maximal runs of word characters of that length. */
  function WordsOf(s: string): (r: set<string>)
    ensures forall w :: w in r <==> |w| > 3 && IsPiece(s, w)
    decreases |s|
  {
    if s == [] then
      assert forall w :: !IsPiece(s, w);
      {}
    else if !IsWordChar(s[0]) then
      var rest := WordsOf(s[1..]);
      forall w ensures IsPiece(s, w) <==> IsPiece(s[1..], w) {
        PiecesAfter(s, 1, w);
      }
      rest
    else
      var w := WordPrefix(s);
      var rest := WordsOf(s[|w|..]);
      forall v ensures IsPiece(s, v) <==> v == w || IsPiece(s[|w|..], v) {
        PiecesOfWordStart(s, v);
      }
      (if |w| > 3 then {w} else {}) + rest
  }

  /** A run of a suffix that does not start right after a word character is
      a run of the whole string. */
  lemma RunShift(s: string, d: nat, w: string, k: nat)
    requires d <= |s|
    requires k > 0 || d == 0 || !IsWordChar(s[d - 1])
    ensures RunAt(s[d..], w, k) <==> RunAt(s, w, d + k)
  {
    if OccursAt(s[d..], w, k) || OccursAt(s, w, d + k) {
      assert s[d..][k..k + |w|] == s[d + k..d + k + |w|];
      if k > 0 {
        assert s[d..][k - 1] == s[d + k - 1];
      }
      if d + k + |w| < |s| {
        assert s[d..][k + |w|] == s[d + k + |w|];
      }
    }
  }

  /** After a non-word character, the pieces of the suffix are the pieces. */
  lemma PiecesAfter(s: string, d: nat, w: string)
    requires 0 < d <= |s| && !IsWordChar(s[d - 1])
    requires forall i :: 0 <= i < d ==> !IsWordChar(s[i])
    ensures IsPiece(s, w) <==> IsPiece(s[d..], w)
  {
    if IsPiece(s, w) {
      var k :| RunAt(s, w, k);
      RunStartsWithWordChar(s, w, k);
      RunShift(s, d, w, k - d);
    }
    if IsPiece(s[d..], w) {
      var k :| RunAt(s[d..], w, k);
      RunShift(s, d, w, k);
    }
  }

  /** For a string starting with a word character, the pieces are its word
      prefix and the pieces after it. */
  lemma PiecesOfWordStart(s: string, v: string)
    requires s != [] && IsWordChar(s[0])
    ensures IsPiece(s, v) <==> v == WordPrefix(s) || IsPiece(s[|WordPrefix(s)|..], v)
  {
    var p := WordPrefix(s);
    if IsPiece(s, v) {
      var k :| RunAt(s, v, k);
      if k == 0 {
        PrefixRun(s, v);
      } else {
        RunBeyondPrefix(s, v, k);
        RunShift(s, |p|, v, k - |p|);
      }
    }
    if v == p {
      PrefixIsRun(s);
    }
    if IsPiece(s[|p|..], v) {
      var k :| RunAt(s[|p|..], v, k);
      RunStartsWithWordChar(s[|p|..], v, k);
      RunShift(s, |p|, v, k);
    }
  }

  /** The word prefix of a string starting with a word character is a run. */
  lemma PrefixIsRun(s: string)
    requires s != [] && IsWordChar(s[0])
    ensures RunAt(s, WordPrefix(s), 0)
  {
    var p := WordPrefix(s);
    assert p == [s[0]] + WordPrefix(s[1..]);
    assert OccursAt(s, p, 0);
  }

  /** A run that does not start the string starts after the word prefix. */
  lemma RunBeyondPrefix(s: string, v: string, k: int)
    requires RunAt(s, v, k) && k > 0
    ensures k > |WordPrefix(s)|
  {
    var p := WordPrefix(s);
    RunStartsWithWordChar(s, v, k);
    assert forall i :: 0 <= i < |p| ==> IsWordChar(s[i]) by {
      forall i | 0 <= i < |p| ensures IsWordChar(s[i]) {
        assert s[i] == p[i];
      }
    }
  }

  /** A run starts with a word character. */
  lemma RunStartsWithWordChar(s: string, w: string, k: int)
    requires RunAt(s, w, k)
    ensures 0 <= k < |s| && IsWordChar(s[k])
  {
    assert s[k] == s[k..k + |w|][0];
  }

  /** The only run at the start is the word prefix. */
  lemma PrefixRun(s: string, v: string)
    requires RunAt(s, v, 0)
    ensures v == WordPrefix(s)
  {
    assert v == s[..|v|];
  }

  /** The word set of a text, after lower-casing. */
  function Words(text: string): set<string>
  {
    WordsOf(Lower(text))
  }

  /** Shared words over distinct words (the Jaccard index), 0 for two empty
      sets. */
  function Jaccard(w1: set<string>, w2: set<string>): (r: real)
    ensures 0.0 <= r <= 1.0
    ensures r == 0.0 <==> w1 * w2 == {}
    ensures r == 1.0 <==> w1 == w2 && w1 != {}
  {
    var total := |w1 + w2|;
    UnionSplit(w1, w2);
    if total > 0 then
      FullOverlap(w1, w2);
      Ratio(|w1 * w2|, total)
    else
      0.0
  }

  /** The union splits into the words of only the first set, of only the
      second, and of both. */
  lemma UnionSplit(w1: set<string>, w2: set<string>)
    ensures |w1 + w2| == |w1 - w2| + |w2 - w1| + |w1 * w2|
  {
  }

  /** The intersection is as large as the union only for equal sets. */
  lemma FullOverlap(w1: set<string>, w2: set<string>)
    ensures |w1 * w2| == |w1 + w2| ==> w1 == w2
  {
    if |w1 * w2| == |w1 + w2| {
      UnionSplit(w1, w2);
      assert |w1 - w2| == 0 && |w2 - w1| == 0;
      assert w1 - w2 == {} && w2 - w1 == {};
    }
  }

  /** `m / n` for `0 <= m <= n`, with `n > 0`: a share between 0 and 1,
      0 exactly for none and 1 exactly for all. */
  function Ratio(m: nat, n: nat): (r: real)
    requires 0 < n && m <= n
    ensures r * n as real == m as real
    ensures 0.0 <= r <= 1.0
    ensures r == 0.0 <==> m == 0
    ensures r == 1.0 <==> m == n
  {
    var q := m as real / n as real;
    assert q * n as real == m as real;
    assert q <= 1.0 by {
      assert (1.0 - q) * n as real == (n - m) as real;
    }
    q
  }

  lemma JaccardSymmetric(w1: set<string>, w2: set<string>)
    ensures Jaccard(w1, w2) == Jaccard(w2, w1)
  {
    assert w1 + w2 == w2 + w1 && w1 * w2 == w2 * w1;
  }

  /** `calculateTextSimilarity`: the Jaccard index of the two word sets. */
  function TextSimilarity(t1: string, t2: string): (r: real)
    ensures 0.0 <= r <= 1.0
    ensures Words(t1) == {} && Words(t2) == {} ==> r == 0.0
    ensures r == 1.0 <==> Words(t1) == Words(t2) && Words(t1) != {}
  {
    Jaccard(Words(t1), Words(t2))
  }

  /** Text similarity does not depend on the order of its arguments, and a
      text with at least one long word is fully similar to itself. */
  lemma TextSimilaritySymmetric(t1: string, t2: string)
    ensures TextSimilarity(t1, t2) == TextSimilarity(t2, t1)
    ensures Words(t1) != {} ==> TextSimilarity(t1, t1) == 1.0
  {
    JaccardSymmetric(Words(t1), Words(t2));
  }

  // ---------------------------------------------------------------------------
  // Project similarity
  // ---------------------------------------------------------------------------

  /** Both descriptions are present (non-empty), so the pair is compared. */
  predicate Comparable(p1: Place, p2: Place)
  {
    p1.description != [] && p2.description != []
  }

  /** The similarity of two places' descriptions. */
  function PairSimilarity(p1: Place, p2: Place): real
  {
    TextSimilarity(p1.description, p2.description)
  }

  /** The best similarity of `p` against the comparable places of `ps`. */
  function BestAgainst(p: Place, ps: seq<Place>): (r: real)
    ensures 0.0 <= r <= 1.0
    ensures forall j :: 0 <= j < |ps| && Comparable(p, ps[j]) ==> PairSimilarity(p, ps[j]) <= r
    ensures r == 0.0 || exists j :: 0 <= j < |ps| && Comparable(p, ps[j]) && r == PairSimilarity(p, ps[j])
  {
    if ps == [] then 0.0
    else
      var rest := BestAgainst(p, ps[1..]);
      var s := PairSimilarity(p, ps[0]);
      var r := if Comparable(p, ps[0]) && s > rest then s else rest;
      BestStep(PairSimilarity, p, ps, rest, r);
      r
  }

  /** The step of `BestAgainst`: the larger of the first comparable value and
      the best of the rest bounds every comparable value and is one of them
      (or 0). */
  lemma BestStep(sim: (Place, Place) -> real, p: Place, ps: seq<Place>, rest: real, r: real)
    requires ps != []
    requires forall j :: 0 <= j < |ps[1..]| && Comparable(p, ps[1..][j]) ==> sim(p, ps[1..][j]) <= rest
    requires rest == 0.0 || exists j :: 0 <= j < |ps[1..]| && Comparable(p, ps[1..][j]) && rest == sim(p, ps[1..][j])
    requires r == if Comparable(p, ps[0]) && sim(p, ps[0]) > rest then sim(p, ps[0]) else rest
    ensures forall j :: 0 <= j < |ps| && Comparable(p, ps[j]) ==> sim(p, ps[j]) <= r
    ensures r == 0.0 || exists j :: 0 <= j < |ps| && Comparable(p, ps[j]) && r == sim(p, ps[j])
  {
    assert forall j :: 1 <= j < |ps| ==> ps[j] == ps[1..][j - 1];
    if r != 0.0 && r == rest && !(Comparable(p, ps[0]) && sim(p, ps[0]) > rest) {
      var j :| 0 <= j < |ps[1..]| && Comparable(p, ps[1..][j]) && rest == sim(p, ps[1..][j]);
      assert ps[1..][j] == ps[j + 1];
    }
  }

  /** `r` bounds `sim` on every comparable pair. */
  ghost predicate BoundsPairs(sim: (Place, Place) -> real, r: real, ps1: seq<Place>, ps2: seq<Place>)
  {
    forall i, j :: 0 <= i < |ps1| && 0 <= j < |ps2| && Comparable(ps1[i], ps2[j]) ==> sim(ps1[i], ps2[j]) <= r
  }

  /** `r` is 0 or the value of `sim` on some comparable pair. */
  ghost predicate AttainedByPair(sim: (Place, Place) -> real, r: real, ps1: seq<Place>, ps2: seq<Place>)
  {
    r == 0.0 || exists i, j :: 0 <= i < |ps1| && 0 <= j < |ps2| && Comparable(ps1[i], ps2[j]) && r == sim(ps1[i], ps2[j])
  }

  /** `calculateProjectSimilarity`: the largest description similarity over
      all comparable pairs, 0 when there is none. */
  function ProjectSimilarity(ps1: seq<Place>, ps2: seq<Place>): (r: real)
    ensures 0.0 <= r <= 1.0
    ensures ps1 == [] || ps2 == [] ==> r == 0.0
    ensures BoundsPairs(PairSimilarity, r, ps1, ps2)
    ensures AttainedByPair(PairSimilarity, r, ps1, ps2)
  {
    if ps1 == [] then 0.0
    else
      var first := BestAgainst(ps1[0], ps2);
      var rest := ProjectSimilarity(ps1[1..], ps2);
      var r := if first > rest then first else rest;
      StepBounds(PairSimilarity, ps1, ps2, first, rest, r);
      StepAttained(PairSimilarity, ps1, ps2, first, rest, r);
      r
  }

  /** The bound step of `ProjectSimilarity`: what bounds the first row and
      the other rows bounds every pair. */
  lemma StepBounds(sim: (Place, Place) -> real, ps1: seq<Place>, ps2: seq<Place>, first: real, rest: real, r: real)
    requires ps1 != []
    requires forall j :: 0 <= j < |ps2| && Comparable(ps1[0], ps2[j]) ==> sim(ps1[0], ps2[j]) <= first
    requires BoundsPairs(sim, rest, ps1[1..], ps2)
    requires first <= r && rest <= r
    ensures BoundsPairs(sim, r, ps1, ps2)
  {
    forall i, j | 0 <= i < |ps1| && 0 <= j < |ps2| && Comparable(ps1[i], ps2[j])
      ensures sim(ps1[i], ps2[j]) <= r
    {
      if i > 0 {
        assert ps1[i] == ps1[1..][i - 1];
      }
    }
  }

  /** The attainment step of `ProjectSimilarity`: the larger of the first
      row's best and the other rows' best is attained by some pair. */
  lemma StepAttained(sim: (Place, Place) -> real, ps1: seq<Place>, ps2: seq<Place>, first: real, rest: real, r: real)
    requires ps1 != []
    requires first == 0.0 || exists j :: 0 <= j < |ps2| && Comparable(ps1[0], ps2[j]) && first == sim(ps1[0], ps2[j])
    requires AttainedByPair(sim, rest, ps1[1..], ps2)
    requires r == first || r == rest
    ensures AttainedByPair(sim, r, ps1, ps2)
  {
    if r != 0.0 {
      if r == first {
        var j :| 0 <= j < |ps2| && Comparable(ps1[0], ps2[j]) && first == sim(ps1[0], ps2[j]);
        assert 0 <= 0 < |ps1| && r == sim(ps1[0], ps2[j]);
      } else {
        var i, j :| 0 <= i < |ps1[1..]| && 0 <= j < |ps2| && Comparable(ps1[1..][i], ps2[j])
                    && rest == sim(ps1[1..][i], ps2[j]);
        assert ps1[1..][i] == ps1[i + 1];
      }
    }
  }

  // ---------------------------------------------------------------------------
  // The match score
  // ---------------------------------------------------------------------------

  /** An entry of `matchingAttributes`: a similarity percentage for a text
      field, or a fixed remark. */
  datatype Attribute =
    | Similar(category: string, percent: int)
    | Remark(category: string, value: string)

  datatype MatchDetails = MatchDetails(
    sharedInterests: seq<string>,
    complementarySkills: seq<string>,
    matchingAttributes: seq<Attribute>)

  datatype MatchResult = MatchResult(score: real, details: MatchDetails, percentage: int)

  /** `Math.round` on a real: halves round up. */
  function JsRound(x: real): (n: int)
    ensures x - 0.5 < n as real <= x + 0.5
  {
    (x + 0.5).Floor
  }

  /** The score normalised against 80 points, rounded and capped at 100. */
  function Percentage(score: real): (p: int)
    requires score >= 0.0
    ensures 0 <= p <= 100
    ensures score >= 80.0 ==> p == 100
    ensures score == 0.0 ==> p == 0
  {
    var p := JsRound(score / 80.0 * 100.0);
    if p < 100 then p else 100
  }

  /** Higher scores never give a lower percentage. */
  lemma PercentageMonotone(s1: real, s2: real)
    requires 0.0 <= s1 <= s2
    ensures Percentage(s1) <= Percentage(s2)
  {
    assert s1 / 80.0 * 100.0 <= s2 / 80.0 * 100.0;
  }

  /** `user1.interests.filter(i => user2.interests.includes(i))`. */
  function Shared(xs: seq<string>, ys: seq<string>): (r: seq<string>)
    ensures forall i :: 0 <= i < |r| ==> r[i] in xs && r[i] in ys
    ensures forall i :: 0 <= i < |xs| && xs[i] in ys ==> xs[i] in r
    ensures forall x :: multiset(r)[x] == if x in ys then multiset(xs)[x] else 0
  {
    var r := Seqs.Filter(xs, (x: string) => x in ys);
    forall x ensures multiset(r)[x] == if x in ys then multiset(xs)[x] else 0 {
      Seqs.FilterMultiset(xs, (x: string) => x in ys, x);
    }
    r
  }

  /** `user1.skills.filter(s => !user2.skills.includes(s))`. */
  function Missing(xs: seq<string>, ys: seq<string>): (r: seq<string>)
    ensures forall i :: 0 <= i < |r| ==> r[i] in xs && r[i] !in ys
    ensures forall i :: 0 <= i < |xs| && xs[i] !in ys ==> xs[i] in r
    ensures forall x :: multiset(r)[x] == if x !in ys then multiset(xs)[x] else 0
  {
    var r := Seqs.Filter(xs, (x: string) => x !in ys);
    forall x ensures multiset(r)[x] == if x !in ys then multiset(xs)[x] else 0 {
      Seqs.FilterMultiset(xs, (x: string) => x !in ys, x);
    }
    r
  }

  /** The shared and the missing entries split the first list. */
  lemma SharedMissingSplit(xs: seq<string>, ys: seq<string>)
    ensures |Shared(xs, ys)| + |Missing(xs, ys)| == |xs|
  {
    Seqs.FilterPartition(xs, (x: string) => x in ys, (x: string) => x !in ys);
  }

  /** The similarity of two text fields, when both are present. */
  function TextBonus(a: string, b: string): (r: Option<real>)
    ensures r.Some? <==> a != [] && b != []
    ensures r.Some? ==> 0.0 <= r.value <= 1.0
  {
    if a != [] && b != [] then Some(TextSimilarity(a, b)) else None
  }

  /** A similarity that was computed, or 0 when it was skipped. */
  function OrZero(sim: Option<real>): (r: real)
    requires sim.Some? ==> 0.0 <= sim.value <= 1.0
    ensures 0.0 <= r <= 1.0
  {
    if sim.Some? then sim.value else 0.0
  }

  /** The shared interests, when both profiles list interests. */
  function SharedInterests(u1: Profile, u2: Profile): (r: seq<string>)
    ensures u1.interests.Some? && u2.interests.Some? ==> r == Shared(u1.interests.value, u2.interests.value)
    ensures u1.interests.None? || u2.interests.None? ==> r == []
  {
    if u1.interests.Some? && u2.interests.Some? then Shared(u1.interests.value, u2.interests.value) else []
  }

  /** The complementary skills, when both profiles list skills. */
  function ComplementarySkills(u1: Profile, u2: Profile): (r: seq<string>)
    ensures u1.skills.Some? && u2.skills.Some? ==> r == Missing(u1.skills.value, u2.skills.value)
    ensures u1.skills.None? || u2.skills.None? ==> r == []
  {
    if u1.skills.Some? && u2.skills.Some? then Missing(u1.skills.value, u2.skills.value) else []
  }

  /** The five similarities the bonus points come from, `None` for a field
      that one of the profiles lacks. */
  datatype Similarities = Similarities(
    goals: Option<real>,
    dream: Option<real>,
    collab: Option<real>,
    projects: Option<real>,
    values: Option<real>)

  ghost predicate InUnitRange(s: Similarities)
  {
    && (s.goals.Some? ==> 0.0 <= s.goals.value <= 1.0)
    && (s.dream.Some? ==> 0.0 <= s.dream.value <= 1.0)
    && (s.collab.Some? ==> 0.0 <= s.collab.value <= 1.0)
    && (s.projects.Some? ==> 0.0 <= s.projects.value <= 1.0)
    && (s.values.Some? ==> 0.0 <= s.values.value <= 1.0)
  }

  function SimilaritiesOf(u1: Profile, u2: Profile): (s: Similarities)
    ensures InUnitRange(s)
    ensures s.projects.Some? <==> u1.ownProjects.Some? && u2.ownProjects.Some?
  {
    Similarities(
      TextBonus(u1.goals, u2.goals),
      TextBonus(u1.dreammallGoals, u2.dreammallGoals),
      TextBonus(u1.collaborationPreferences, u2.collaborationPreferences),
      if u1.ownProjects.Some? && u2.ownProjects.Some?
      then Some(ProjectSimilarity(u1.ownProjects.value, u2.ownProjects.value)) else None,
      TextBonus(u1.valueOrientation, u2.valueOrientation))
  }

  /** The bonus points: weights 15, 20, 15, 10 and 10, at most 70 in all. */
  function Bonus(s: Similarities): (b: real)
    requires InUnitRange(s)
    ensures 0.0 <= b <= 70.0
  {
    15.0 * OrZero(s.goals) + 20.0 * OrZero(s.dream) + 15.0 * OrZero(s.collab)
    + 10.0 * OrZero(s.projects) + 10.0 * OrZero(s.values)
  }

  /** No similarity of `s` exceeds the corresponding one of `t`, a skipped
      similarity counting as 0. */
  predicate NoHigher(s: Similarities, t: Similarities)
  {
    && OrZeroOf(s.goals) <= OrZeroOf(t.goals)
    && OrZeroOf(s.dream) <= OrZeroOf(t.dream)
    && OrZeroOf(s.collab) <= OrZeroOf(t.collab)
    && OrZeroOf(s.projects) <= OrZeroOf(t.projects)
    && OrZeroOf(s.values) <= OrZeroOf(t.values)
  }

  /** `OrZero` without its range requirement, for comparisons. */
  function OrZeroOf(sim: Option<real>): real
  {
    if sim.Some? then sim.value else 0.0
  }

  /** A similarity that adds nothing: skipped, or computed as 0. */
  predicate Silent(sim: Option<real>)
  {
    sim.None? || sim.value == 0.0
  }

  /** Raising any similarity never lowers the bonus. */
  lemma BonusMonotone(s: Similarities, t: Similarities)
    requires InUnitRange(s) && InUnitRange(t)
    requires NoHigher(s, t)
    ensures Bonus(s) <= Bonus(t)
  {
  }

  /** The bonus reaches its 70 points exactly when all five similarities were
      computed and are perfect. */
  lemma BonusFull(s: Similarities)
    requires InUnitRange(s)
    ensures Bonus(s) == 70.0 <==>
      s.goals == Some(1.0) && s.dream == Some(1.0) && s.collab == Some(1.0)
      && s.projects == Some(1.0) && s.values == Some(1.0)
  {
  }

  /** The bonus is 0 exactly when no similarity is positive. */
  lemma BonusZero(s: Similarities)
    requires InUnitRange(s)
    ensures Bonus(s) == 0.0 <==>
      Silent(s.goals) && Silent(s.dream) && Silent(s.collab) && Silent(s.projects) && Silent(s.values)
  {
  }

  /** The attribute a list holds for `category`: every entry of that
      category is `expected`, and `None` means there is no such entry. */
  ghost predicate ListsFor(a: seq<Attribute>, category: string, expected: Option<Attribute>)
  {
    && (forall x :: x in a && x.category == category ==> expected == Some(x))
    && (expected.Some? ==> expected.value in a)
  }

  /** The attribute of a text similarity that clears `threshold`: its
      category and the similarity rounded to a whole percent. */
  function Cleared(category: string, sim: Option<real>, threshold: real): (r: Option<Attribute>)
    ensures r.Some? <==> sim.Some? && sim.value > threshold
    ensures r.Some? ==> r.value.category == category && r.value == Similar(category, JsRound(sim.value * 100.0))
  {
    if sim.Some? && sim.value > threshold then Some(Similar(category, JsRound(sim.value * 100.0))) else None
  }

  const ProjectsCategory := "\U{00C4}hnliche Projekte"

  /** The project remark, present for any project similarity above 0. */
  function ProjectRemark(sim: Option<real>): (r: Option<Attribute>)
    ensures r.Some? <==> sim.Some? && sim.value > 0.0
    ensures r.Some? ==> r.value.category == ProjectsCategory && r.value == Remark(ProjectsCategory, "Gemeinsamer Projektbereich")
  {
    if sim.Some? && sim.value > 0.0 then Some(Remark(ProjectsCategory, "Gemeinsamer Projektbereich")) else None
  }

  /** The pushed attribute, if any. */
  function Pushed(o: Option<Attribute>): (r: seq<Attribute>)
    ensures forall x :: x in r <==> o == Some(x)
    ensures |r| <= 1
  {
    if o.Some? then [o.value] else []
  }

  /** Every attribute of `a` is of `category`. */
  ghost predicate AllOf(a: seq<Attribute>, category: string)
  {
    forall x :: x in a ==> x.category == category
  }

  /** One pushed piece of a list: what it holds for its category. */
  ghost predicate Piece(part: seq<Attribute>, category: string, expected: Option<Attribute>)
  {
    (forall x :: x in part <==> expected == Some(x)) && AllOf(part, category)
  }

  /** A list holds for a category exactly what the part of that category
      holds, when the rest of the list has other categories. */
  lemma ListsForPart(a: seq<Attribute>, part: seq<Attribute>, category: string, expected: Option<Attribute>)
    requires Piece(part, category, expected)
    requires forall x :: x in part ==> x in a
    requires forall x :: x in a && x.category == category ==> x in part
    ensures ListsFor(a, category, expected)
  {
  }

  /** Five pieces of five distinct categories, joined in order, list for
      each category what its piece holds. */
  lemma JoinPieces(p1: seq<Attribute>, p2: seq<Attribute>, p3: seq<Attribute>, p4: seq<Attribute>, p5: seq<Attribute>,
                   c1: string, c2: string, c3: string, c4: string, c5: string,
                   e1: Option<Attribute>, e2: Option<Attribute>, e3: Option<Attribute>, e4: Option<Attribute>, e5: Option<Attribute>)
    requires Piece(p1, c1, e1) && Piece(p2, c2, e2) && Piece(p3, c3, e3) && Piece(p4, c4, e4) && Piece(p5, c5, e5)
    requires c1 != c2 && c1 != c3 && c1 != c4 && c1 != c5 && c2 != c3 && c2 != c4 && c2 != c5
    requires c3 != c4 && c3 != c5 && c4 != c5
    ensures ListsFor(p1 + p2 + p3 + p4 + p5, c1, e1) && ListsFor(p1 + p2 + p3 + p4 + p5, c2, e2)
    ensures ListsFor(p1 + p2 + p3 + p4 + p5, c3, e3) && ListsFor(p1 + p2 + p3 + p4 + p5, c4, e4)
    ensures ListsFor(p1 + p2 + p3 + p4 + p5, c5, e5)
    ensures forall x :: x in p1 + p2 + p3 + p4 + p5 ==> x.category in [c1, c2, c3, c4, c5]
  {
    var a := p1 + p2 + p3 + p4 + p5;
    assert forall x :: x in a <==> x in p1 || x in p2 || x in p3 || x in p4 || x in p5;
    ListsForPart(a, p1, c1, e1);
    ListsForPart(a, p2, c2, e2);
    ListsForPart(a, p3, c3, e3);
    ListsForPart(a, p4, c4, e4);
    ListsForPart(a, p5, c5, e5);
  }

  /** The piece of a pushed attribute of the right category. */
  lemma PushedPiece(o: Option<Attribute>, category: string)
    requires o.Some? ==> o.value.category == category
    ensures Piece(Pushed(o), category, o)
  {
  }

  /** The `matchingAttributes`: one attribute each for goals, DreamMall
      goals and collaboration above 0.3, any project similarity above 0, and
      value orientation above 0.4. */
  function Attributes(s: Similarities): (a: seq<Attribute>)
    ensures |a| <= 5
    ensures ListsFor(a, "Ziele", Cleared("Ziele", s.goals, 0.3))
    ensures ListsFor(a, "DreamMall Ziele", Cleared("DreamMall Ziele", s.dream, 0.3))
    ensures ListsFor(a, "Zusammenarbeit", Cleared("Zusammenarbeit", s.collab, 0.3))
    ensures ListsFor(a, ProjectsCategory, ProjectRemark(s.projects))
    ensures ListsFor(a, "Werteorientierung", Cleared("Werteorientierung", s.values, 0.4))
    ensures forall x :: x in a ==>
      x.category in ["Ziele", "DreamMall Ziele", "Zusammenarbeit", ProjectsCategory, "Werteorientierung"]
  {
    var goals := Cleared("Ziele", s.goals, 0.3);
    var dream := Cleared("DreamMall Ziele", s.dream, 0.3);
    var collab := Cleared("Zusammenarbeit", s.collab, 0.3);
    var projects := ProjectRemark(s.projects);
    var values := Cleared("Werteorientierung", s.values, 0.4);
    PushedPiece(goals, "Ziele");
    PushedPiece(dream, "DreamMall Ziele");
    PushedPiece(collab, "Zusammenarbeit");
    PushedPiece(projects, ProjectsCategory);
    PushedPiece(values, "Werteorientierung");
    JoinPieces(Pushed(goals), Pushed(dream), Pushed(collab), Pushed(projects), Pushed(values),
               "Ziele", "DreamMall Ziele", "Zusammenarbeit", ProjectsCategory, "Werteorientierung",
               goals, dream, collab, projects, values);
    Pushed(goals) + Pushed(dream) + Pushed(collab) + Pushed(projects) + Pushed(values)
  }


  /** `calculateMatchScore(user1, user2)`: 10 points per shared interest, 5
      per skill of `user1` that `user2` lacks, and up to 70 bonus points for
      similar goals (15), DreamMall goals (20), collaboration preferences
      (15), own projects (10) and value orientation (10). */
  function MatchScore(u1: Profile, u2: Profile): (r: MatchResult)
    ensures r.details.sharedInterests == SharedInterests(u1, u2)
    ensures r.details.complementarySkills == ComplementarySkills(u1, u2)
    ensures var base := 10.0 * |r.details.sharedInterests| as real + 5.0 * |r.details.complementarySkills| as real;
      base <= r.score <= base + 70.0
    ensures r.score == 10.0 * |r.details.sharedInterests| as real + 5.0 * |r.details.complementarySkills| as real
                       + Bonus(SimilaritiesOf(u1, u2))
    ensures r.details.matchingAttributes == Attributes(SimilaritiesOf(u1, u2))
    ensures r.percentage == Percentage(r.score) && 0 <= r.percentage <= 100
    ensures |r.details.matchingAttributes| <= 5
  {
    var shared := SharedInterests(u1, u2);
    var complementary := ComplementarySkills(u1, u2);
    var sims := SimilaritiesOf(u1, u2);
    var score := 10.0 * |shared| as real + 5.0 * |complementary| as real + Bonus(sims);
    MatchResult(score, MatchDetails(shared, complementary, Attributes(sims)), Percentage(score))
  }

  /** Adding shared interests or complementary skills never lowers the
      percentage: the interest and skill points are the score's floor. */
  lemma MatchScoreFloor(u1: Profile, u2: Profile)
    ensures var r := MatchScore(u1, u2);
      r.percentage >= Percentage(10.0 * |r.details.sharedInterests| as real
                                 + 5.0 * |r.details.complementarySkills| as real)
  {
    var r := MatchScore(u1, u2);
    PercentageMonotone(10.0 * |r.details.sharedInterests| as real
                       + 5.0 * |r.details.complementarySkills| as real, r.score);
  }

  // ---------------------------------------------------------------------------
  // Overlap percentage
  // ---------------------------------------------------------------------------

  /** Some candidate item equals `item` ignoring case. */
  predicate MatchesSome(item: string, candidates: seq<string>)
  {
    exists j :: 0 <= j < |candidates| && Lower(candidates[j]) == Lower(item)
  }

  /** The test `some(c => c.toLowerCase() === item.toLowerCase())`, as a
      function value. */
  function Matcher(candidates: seq<string>): string -> bool
  {
    item => MatchesSome(item, candidates)
  }

  /** `calculateOverlapScore`: the share, in percent, of the user's items that
      some candidate item equals ignoring case; 0 when either list is empty. */
  function OverlapScore(userItems: seq<string>, candidateItems: seq<string>): (r: real)
    ensures userItems == [] || candidateItems == [] ==> r == 0.0
    ensures 0.0 <= r <= 100.0
    ensures userItems != [] && candidateItems != [] ==>
      (r == 100.0 <==> forall i :: 0 <= i < |userItems| ==> MatchesSome(userItems[i], candidateItems))
    ensures r == 0.0 <==>
      (candidateItems == [] || forall i :: 0 <= i < |userItems| ==> !MatchesSome(userItems[i], candidateItems))
  {
    if |userItems| == 0 || |candidateItems| == 0 then 0.0
    else
      var p := Matcher(candidateItems);
      var matched := Seqs.Count(userItems, p);
      assert forall i :: 0 <= i < |userItems| ==> (p(userItems[i]) <==> MatchesSome(userItems[i], candidateItems));
      Seqs.CountAll(userItems, p);
      Seqs.CountNone(userItems, p);
      Percent(matched, |userItems|)
  }

  /** The overlap is the matched items' share of the user's items, in
      percent: with `Percent`'s contract, the score times the number of user
      items is 100 times the number of items some candidate matches. */
  lemma OverlapScoreIsPercent(userItems: seq<string>, candidateItems: seq<string>)
    requires userItems != [] && candidateItems != []
    ensures OverlapScore(userItems, candidateItems) == Percent(Seqs.Count(userItems, Matcher(candidateItems)), |userItems|)
  {
  }

  /** `m / n * 100` for `0 <= m <= n`, with `n > 0`. */
  function Percent(m: nat, n: nat): (r: real)
    requires 0 < n && m <= n
    ensures r * n as real == 100.0 * m as real
    ensures 0.0 <= r <= 100.0
    ensures r == 100.0 <==> m == n
    ensures r == 0.0 <==> m == 0
  {
    var q := Ratio(m, n);
    assert q * 100.0 * n as real == 100.0 * (q * n as real);
    q * 100.0
  }

  // ---------------------------------------------------------------------------
  // Ranking
  // ---------------------------------------------------------------------------

  /** One entry of `findTopMatches`: the candidate, the match percentage, the
      details and the two overlap percentages (before `toFixed`). */
  datatype ScoredMatch = ScoredMatch(
    user: Profile,
    score: int,
    details: MatchDetails,
    skillOverlap: real,
    interestOverlap: real)

  const DefaultTopN := 10

  /** One element of the `otherUsers.map(...)` of `findTopMatches`: the
      candidate scored by `calculateMatchScore`, with the overlaps of the
      skill and interest lists, a missing list counting as empty. */
  function ScoreCandidate(user: Profile, candidate: Profile): (m: ScoredMatch)
    ensures m.user == candidate
    ensures m.score == MatchScore(user, candidate).percentage
    ensures m.details == MatchScore(user, candidate).details
    ensures m.skillOverlap == OverlapScore(user.skills.GetOr([]), candidate.skills.GetOr([]))
    ensures m.interestOverlap == OverlapScore(user.interests.GetOr([]), candidate.interests.GetOr([]))
    ensures 0.0 <= m.skillOverlap <= 100.0 && 0.0 <= m.interestOverlap <= 100.0
  {
    var result := MatchScore(user, candidate);
    ScoredMatch(candidate, result.percentage, result.details,
                OverlapScore(user.skills.GetOr([]), candidate.skills.GetOr([])),
                OverlapScore(user.interests.GetOr([]), candidate.interests.GetOr([])))
  }

  function ScoreOf(m: ScoredMatch): real
  {
    m.score as real
  }

  /** The candidates: every profile with an id different from the user's. */
  function Others(user: Profile, all: seq<Profile>): (r: seq<Profile>)
    ensures forall i :: 0 <= i < |r| ==> r[i] in all && r[i].id != user.id
    ensures forall i :: 0 <= i < |all| && all[i].id != user.id ==> all[i] in r
  {
    Seqs.Filter(all, (u: Profile) => u.id != user.id)
  }

  /** Every candidate, scored against `user`, in list order. */
  function ScoreAll(user: Profile, candidates: seq<Profile>): (s: seq<ScoredMatch>)
    ensures |s| == |candidates|
    ensures forall k :: 0 <= k < |s| ==> s[k] == ScoreCandidate(user, candidates[k])
  {
    seq(|candidates|, k requires 0 <= k < |candidates| => ScoreCandidate(user, candidates[k]))
  }

  /** Entries drawn from a scored list are candidates scored against `user`. */
  lemma DrawnFromScored(user: Profile, candidates: seq<Profile>, r: seq<ScoredMatch>)
    requires forall i :: 0 <= i < |r| ==> r[i] in ScoreAll(user, candidates)
    ensures forall i :: 0 <= i < |r| ==> r[i].user in candidates && r[i] == ScoreCandidate(user, r[i].user)
  {
    var s := ScoreAll(user, candidates);
    forall i | 0 <= i < |r|
      ensures r[i].user in candidates && r[i] == ScoreCandidate(user, r[i].user)
    {
      assert r[i] in s;
      var k :| 0 <= k < |s| && s[k] == r[i];
    }
  }

  /** `findTopMatches(user, allUsers, topN)`: nothing for a missing user or a
      missing list; otherwise the `topN` best-scored other profiles, best
      first, ties in list order. */
  function FindTopMatches(user: Option<Profile>, allUsers: Option<seq<Profile>>, topN: int): (r: seq<ScoredMatch>)
    ensures user.None? || allUsers.None? ==> r == []
    ensures user.Some? && allUsers.Some? ==>
      && (forall i :: 0 <= i < |r| ==> r[i].user in allUsers.value && r[i].user.id != user.value.id)
      && (forall i :: 0 <= i < |r| ==> r[i] == ScoreCandidate(user.value, r[i].user))
      && (0 <= topN ==> |r| == (if topN < |Others(user.value, allUsers.value)| then topN
                                else |Others(user.value, allUsers.value)|))
      && multiset(r) <= multiset(ScoreAll(user.value, Others(user.value, allUsers.value)))
    ensures forall i, j :: 0 <= i < j < |r| ==> r[i].score >= r[j].score
  {
    match (user, allUsers)
    case (Some(u), Some(all)) =>
      var others := Others(u, all);
      var r := Seqs.TopByKey(ScoreAll(u, others), ScoreOf, topN);
      DrawnFromScored(u, others, r);
      r
    case _ => []
  }

  /** Every scored candidate left out of the ranking scores no higher than
      every candidate in it. */
  lemma FindTopMatchesKeepsBest(user: Profile, all: seq<Profile>, topN: int)
    ensures var r := FindTopMatches(Some(user), Some(all), topN);
      forall x :: x in ScoreAll(user, Others(user, all)) && x !in r ==>
        forall i :: 0 <= i < |r| ==> r[i].score >= x.score
  {
    var scored := ScoreAll(user, Others(user, all));
    var r := FindTopMatches(Some(user), Some(all), topN);
    assert r == Seqs.TopByKey(scored, ScoreOf, topN);
    TopScoresKeepBest(scored, topN, r);
  }

  /** The top entries of a scored list outscore every entry left out. */
  lemma TopScoresKeepBest(scored: seq<ScoredMatch>, topN: int, r: seq<ScoredMatch>)
    requires r == Seqs.TopByKey(scored, ScoreOf, topN)
    ensures forall x :: x in scored && x !in r ==> forall i :: 0 <= i < |r| ==> r[i].score >= x.score
  {
    Seqs.TopByKeyKeepsBest(scored, ScoreOf, topN);
  }

  /** Ties keep the list order: for every score, the kept candidates with
      that score are the first scored candidates with it. */
  lemma FindTopMatchesTiesInOrder(user: Profile, all: seq<Profile>, topN: int, score: int)
    ensures Seqs.WithKey(FindTopMatches(Some(user), Some(all), topN), ScoreOf, score as real)
         <= Seqs.WithKey(ScoreAll(user, Others(user, all)), ScoreOf, score as real)
  {
    Seqs.TopByKeyStable(ScoreAll(user, Others(user, all)), ScoreOf, topN, score as real);
  }

  // ---------------------------------------------------------------------------
  // The older ranking (services/MatchingService.js)
  // ---------------------------------------------------------------------------

  /** `{...user, matchResult}`: the candidate with its full match result. */
  datatype RankedUser = RankedUser(user: Profile, matchResult: MatchResult)

  const DefaultLimit := 5

  function RawScoreOf(m: RankedUser): real
  {
    m.matchResult.score
  }

  /** The older `findTopMatches(targetUser, allUsers, limit)`: no guard for
      missing arguments, and candidates are ranked by the raw score rather
      than the capped percentage. */
  function LegacyFindTopMatches(target: Profile, allUsers: seq<Profile>, limit: int): (r: seq<RankedUser>)
    ensures forall i :: 0 <= i < |r| ==> r[i].user in allUsers && r[i].user.id != target.id
    ensures forall i :: 0 <= i < |r| ==> r[i].matchResult == MatchScore(target, r[i].user)
    ensures 0 <= limit ==> |r| == (if limit < |Others(target, allUsers)| then limit
                                   else |Others(target, allUsers)|)
    ensures forall i, j :: 0 <= i < j < |r| ==> r[i].matchResult.score >= r[j].matchResult.score
    ensures multiset(r) <= multiset(RankAll(target, Others(target, allUsers)))
  {
    var others := Others(target, allUsers);
    var r := Seqs.TopByKey(RankAll(target, others), RawScoreOf, limit);
    DrawnFromRanked(target, others, r);
    r
  }

  function RankAll(target: Profile, candidates: seq<Profile>): (s: seq<RankedUser>)
    ensures |s| == |candidates|
    ensures forall k :: 0 <= k < |s| ==> s[k] == RankedUser(candidates[k], MatchScore(target, candidates[k]))
  {
    seq(|candidates|, k requires 0 <= k < |candidates| => RankedUser(candidates[k], MatchScore(target, candidates[k])))
  }

  lemma DrawnFromRanked(target: Profile, candidates: seq<Profile>, r: seq<RankedUser>)
    requires forall i :: 0 <= i < |r| ==> r[i] in RankAll(target, candidates)
    ensures forall i :: 0 <= i < |r| ==> r[i].user in candidates && r[i].matchResult == MatchScore(target, r[i].user)
  {
    var s := RankAll(target, candidates);
    forall i | 0 <= i < |r|
      ensures r[i].user in candidates && r[i].matchResult == MatchScore(target, r[i].user)
    {
      assert r[i] in s;
      var k :| 0 <= k < |s| && s[k] == r[i];
    }
  }

  /** In the older ranking too, a candidate left out scores no higher than
      every candidate kept. */
  lemma LegacyKeepsBest(target: Profile, allUsers: seq<Profile>, limit: int)
    ensures var r := LegacyFindTopMatches(target, allUsers, limit);
      forall x :: x in RankAll(target, Others(target, allUsers)) && x !in r ==>
        forall i :: 0 <= i < |r| ==> r[i].matchResult.score >= x.matchResult.score
  {
    Seqs.TopByKeyKeepsBest(RankAll(target, Others(target, allUsers)), RawScoreOf, limit);
  }

  /** In the older ranking, ties keep the list order. */
  lemma LegacyTiesInOrder(target: Profile, allUsers: seq<Profile>, limit: int, score: real)
    ensures Seqs.WithKey(LegacyFindTopMatches(target, allUsers, limit), RawScoreOf, score)
         <= Seqs.WithKey(RankAll(target, Others(target, allUsers)), RawScoreOf, score)
  {
    Seqs.TopByKeyStable(RankAll(target, Others(target, allUsers)), RawScoreOf, limit, score);
  }

  /** Ranking by the raw score agrees with ranking by the percentage: along
      the older ranking the percentages never increase either. */
  lemma LegacyRankingByPercentage(target: Profile, allUsers: seq<Profile>, limit: int)
    ensures var r := LegacyFindTopMatches(target, allUsers, limit);
      forall i, j :: 0 <= i < j < |r| ==> r[i].matchResult.percentage >= r[j].matchResult.percentage
  {
    var r := LegacyFindTopMatches(target, allUsers, limit);
    forall i, j | 0 <= i < j < |r|
      ensures r[i].matchResult.percentage >= r[j].matchResult.percentage
    {
      PercentageMonotone(r[j].matchResult.score, r[i].matchResult.score);
    }
  }
}
