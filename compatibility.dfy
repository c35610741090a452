/**
 * The pairwise compatibility rule chain: a pure, first-match-wins evaluation
 * over an ordered pair of plants and the distance between their anchors.
 */
module Compatibility {
  import opened Plants

  datatype Kind = Beneficial | Neutral | Harmful

  /**
   * Why a verdict was reached. The rounded figures and the sentence texts of
   * the messages are formatting and are not modelled; the spacing violation
   * keeps the exact required clearance.
   */
  datatype Reason =
    | SpacingViolation(required: real)
    | NitrogenFertilizer
    | LivingMulch
    | SharedGuilds(guilds: seq<int>)
    | ProperSpacing

  datatype Verdict = Verdict(compatible: bool, reason: Reason, kind: Kind)

  /** The clearance two plants need: the mean of their footprints. */
  function RequiredSpacing(p1: Plant, p2: Plant): (r: real)
    ensures r >= 0.0
  {
    (p1.spacing + p2.spacing) as real / 2.0
  }

  /** The guilds of `mine` that also occur in `theirs`, in the order of `mine`. */
  function Shared(mine: seq<int>, theirs: seq<int>): (r: seq<int>)
    ensures |r| <= |mine|
    ensures forall g :: g in r ==> g in mine && g in theirs
  {
    if mine == [] then []
    else (if mine[0] in theirs then [mine[0]] else []) + Shared(mine[1..], theirs)
  }

  /** Rules 2 to 5: the verdict for a pair that is far enough apart. */
  function Ecological(p1: Plant, p2: Plant): (v: Verdict)
    ensures v.compatible && v.kind != Harmful
  {
    if p1.layer == Overstory && p2.nitrogenFixer then
      Verdict(true, NitrogenFertilizer, Beneficial)
    else if p1.layer == Groundcover && p2.layer != Groundcover then
      Verdict(true, LivingMulch, Beneficial)
    else
      var shared := Shared(p1.compatibleGuilds, p2.compatibleGuilds);
      if |shared| > 0 then Verdict(true, SharedGuilds(shared), Beneficial)
      else Verdict(true, ProperSpacing, Neutral)
  }

  /**
   * The compatibility of `p1` with `p2` at anchor distance `distance`.
   * Spacing takes absolute priority: the verdict is harmful, and the only
   * incompatible one, exactly when the plants are closer than required.
   */
  function Evaluate(p1: Plant, p2: Plant, distance: real): (v: Verdict)
    ensures v.kind == Harmful <==> distance < RequiredSpacing(p1, p2)
    ensures v.compatible <==> v.kind != Harmful
    ensures !v.compatible ==> v.reason == SpacingViolation(RequiredSpacing(p1, p2))
  {
    var required := RequiredSpacing(p1, p2);
    if distance < required then Verdict(false, SpacingViolation(required), Harmful)
    else Ecological(p1, p2)
  }

  /**
   * The same evaluation when only the squared distance is known: the spacing
   * test compares squares, which avoids the square root of the Euclidean
   * distance.
   */
  function EvaluateSquared(p1: Plant, p2: Plant, distanceSquared: real): (v: Verdict)
    ensures v.kind == Harmful <==> distanceSquared < RequiredSpacing(p1, p2) * RequiredSpacing(p1, p2)
    ensures v.compatible <==> v.kind != Harmful
  {
    var required := RequiredSpacing(p1, p2);
    if distanceSquared < required * required then Verdict(false, SpacingViolation(required), Harmful)
    else Ecological(p1, p2)
  }

  /** For non-negative reals, comparing squares is comparing the values. */
  lemma SquareMonotone(a: real, b: real)
    requires a >= 0.0 && b >= 0.0
    ensures a < b <==> a * a < b * b
  {
    if a < b {
      var d := b - a;
      assert b == a + d;
      assert b * b == a * a + 2.0 * a * d + d * d;
      assert a * d >= 0.0;
      assert d * d > 0.0;
    } else {
      var d := a - b;
      assert a == b + d;
      assert a * a == b * b + 2.0 * b * d + d * d;
      assert b * d >= 0.0;
      assert d * d >= 0.0;
    }
  }

  /** Comparing squares agrees with comparing the distance itself. */
  lemma EvaluateSquaredAgrees(p1: Plant, p2: Plant, distance: real)
    requires distance >= 0.0
    ensures EvaluateSquared(p1, p2, distance * distance) == Evaluate(p1, p2, distance)
  {
    SquareMonotone(distance, RequiredSpacing(p1, p2));
  }

  /** Judging by squares agrees with judging by every non-negative root of the squared distance. */
  lemma EvaluateSquaredAgreesAll(p1: Plant, p2: Plant, distanceSquared: real)
    ensures forall d :: d >= 0.0 && d * d == distanceSquared ==>
      EvaluateSquared(p1, p2, distanceSquared) == Evaluate(p1, p2, d)
  {
    forall d | d >= 0.0 && d * d == distanceSquared
      ensures EvaluateSquared(p1, p2, distanceSquared) == Evaluate(p1, p2, d)
    {
      EvaluateSquaredAgrees(p1, p2, d);
    }
  }

  /** Membership in the shared list is membership in both guild lists. */
  lemma {:induction false} SharedMembers(mine: seq<int>, theirs: seq<int>, g: int)
    ensures g in Shared(mine, theirs) <==> g in mine && g in theirs
  {
    if mine != [] {
      SharedMembers(mine[1..], theirs, g);
      assert mine == [mine[0]] + mine[1..];
    }
  }

  /** The shared list keeps the order of `mine`: it distributes over concatenation. */
  lemma {:induction false} SharedConcat(a: seq<int>, b: seq<int>, theirs: seq<int>)
    ensures Shared(a + b, theirs) == Shared(a, theirs) + Shared(b, theirs)
  {
    if a == [] {
      assert a + b == b;
    } else {
      assert (a + b)[0] == a[0];
      assert (a + b)[1..] == a[1..] + b;
      SharedConcat(a[1..], b, theirs);
    }
  }

  /** When every guild of `mine` is also in `theirs`, the shared list is `mine` itself. */
  lemma {:induction false} SharedAll(mine: seq<int>, theirs: seq<int>)
    requires forall i :: 0 <= i < |mine| ==> mine[i] in theirs
    ensures Shared(mine, theirs) == mine
  {
    if mine != [] {
      SharedAll(mine[1..], theirs);
      assert mine == [mine[0]] + mine[1..];
    }
  }

  /** The shared list is empty exactly when the two lists have no guild in common. */
  lemma SharedEmpty(mine: seq<int>, theirs: seq<int>)
    ensures Shared(mine, theirs) == [] <==> forall g :: g in mine ==> g !in theirs
  {
    if Shared(mine, theirs) != [] {
      var g := Shared(mine, theirs)[0];
      SharedMembers(mine, theirs, g);
    } else {
      forall g | g in mine
        ensures g !in theirs
      {
        SharedMembers(mine, theirs, g);
      }
    }
  }

  /** Two plants share a guild. */
  ghost predicate ShareGuild(p1: Plant, p2: Plant)
  {
    exists g :: g in p1.compatibleGuilds && g in p2.compatibleGuilds
  }

  /**
   * What each verdict means, rule by rule: a beneficial verdict at adequate
   * spacing comes from the first ecological rule that holds, in the fixed
   * order nitrogen fixer, groundcover, shared guild; a neutral one means none
   * of them holds.
   */
  lemma {:induction false} VerdictMeaning(p1: Plant, p2: Plant, distance: real)
    ensures var v := Evaluate(p1, p2, distance);
      && (v.kind == Beneficial <==>
            distance >= RequiredSpacing(p1, p2) &&
            ((p1.layer == Overstory && p2.nitrogenFixer) ||
             (p1.layer == Groundcover && p2.layer != Groundcover) ||
             ShareGuild(p1, p2)))
      && (v.kind == Neutral <==>
            distance >= RequiredSpacing(p1, p2) &&
            !(p1.layer == Overstory && p2.nitrogenFixer) &&
            !(p1.layer == Groundcover && p2.layer != Groundcover) &&
            !ShareGuild(p1, p2))
      && (v.kind == Neutral ==> v.reason == ProperSpacing)
  {
    SharedEmpty(p1.compatibleGuilds, p2.compatibleGuilds);
  }

  /**
   * Rule priority: at adequate spacing an overstory plant beside a nitrogen
   * fixer is judged by the nitrogen rule whatever the guilds; a groundcover
   * beside another layer by the groundcover rule whatever the guilds; and only
   * when neither applies do the shared guilds, in `p1`'s order, decide.
   */
  lemma FirstMatchWins(p1: Plant, p2: Plant, distance: real)
    requires distance >= RequiredSpacing(p1, p2)
    ensures (p1.layer == Overstory && p2.nitrogenFixer) ==>
      Evaluate(p1, p2, distance).reason == NitrogenFertilizer
    ensures (!(p1.layer == Overstory && p2.nitrogenFixer) &&
             p1.layer == Groundcover && p2.layer != Groundcover) ==>
      Evaluate(p1, p2, distance).reason == LivingMulch
    ensures (!(p1.layer == Overstory && p2.nitrogenFixer) &&
             !(p1.layer == Groundcover && p2.layer != Groundcover) &&
             ShareGuild(p1, p2)) ==>
      Evaluate(p1, p2, distance).reason == SharedGuilds(Shared(p1.compatibleGuilds, p2.compatibleGuilds))
  {
    SharedEmpty(p1.compatibleGuilds, p2.compatibleGuilds);
  }

  /** Whether a pair is compatible depends only on the spacing rule, which is symmetric: swapping the plants never changes compatibility. */
  lemma SpacingSymmetric(p1: Plant, p2: Plant, distance: real)
    ensures Evaluate(p1, p2, distance).compatible == Evaluate(p2, p1, distance).compatible
  {
  }
}
