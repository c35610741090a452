/**
 * Queries over the placement store: the compatibility of one placed plant
 * with every other entry, whether it has any spacing issue, and the
 * investment and yield totals.
 */
module Inspection {
  import opened Plants
  import opened Compatibility
  import opened Placement

  /** One row of a neighbour query: the other entry and the verdict for the pair. */
  datatype Neighbour = Neighbour(other: PlacedPlant, verdict: Verdict)

  /** The squared Euclidean distance between two anchors. */
  function SquaredDistance(a: PlacedPlant, b: PlacedPlant): (r: real)
    ensures r >= 0.0
  {
    (a.x - b.x) * (a.x - b.x) + (a.y - b.y) * (a.y - b.y)
  }

  /**
   * The verdict for `self` against `other`, from `self`'s side: the
   * compatibility at the Euclidean distance of their anchors, incompatible
   * exactly when they are too close.
   */
  function PairVerdict(self: PlacedPlant, other: PlacedPlant): (v: Verdict)
    ensures !v.compatible <==> TooClose(self, other)
    ensures forall d :: d >= 0.0 && d * d == SquaredDistance(self, other) ==>
      v == Evaluate(self.plant, other.plant, d)
  {
    EvaluateSquaredAgreesAll(self.plant, other.plant, SquaredDistance(self, other));
    EvaluateSquared(self.plant, other.plant, SquaredDistance(self, other))
  }

  /** `self` paired with each of `others`, in order. */
  function PairWith(self: PlacedPlant, others: seq<PlacedPlant>): (r: seq<Neighbour>)
    ensures |r| == |others|
    ensures forall n :: n in r ==> n.other in others && n.verdict == PairVerdict(self, n.other)
  {
    if others == [] then []
    else [Neighbour(others[0], PairVerdict(self, others[0]))] + PairWith(self, others[1..])
  }

  /** Every other entry (by id) paired with its verdict, in store order. */
  function Neighbours(s: seq<PlacedPlant>, self: PlacedPlant): (r: seq<Neighbour>)
    ensures |r| == |Without(s, self.id)|
    ensures forall n :: n in r ==>
      n.other in s && n.other.id != self.id && n.verdict == PairVerdict(self, n.other)
  {
    PairWith(self, Without(s, self.id))
  }

  /** Whether some neighbour is incompatible with `self`: exactly when another entry crowds it. */
  predicate HasIssues(s: seq<PlacedPlant>, self: PlacedPlant)
    ensures HasIssues(s, self) <==> Crowded(s, self)
  {
    IncompatibleRowMeansCrowded(s, self);
    CrowdedMeansIncompatibleRow(s, self);
    exists n :: n in Neighbours(s, self) && !n.verdict.compatible
  }

  lemma {:induction false} PairWithAt(self: PlacedPlant, others: seq<PlacedPlant>, k: nat)
    requires k < |others|
    ensures PairWith(self, others)[k] == Neighbour(others[k], PairVerdict(self, others[k]))
  {
    if k > 0 {
      PairWithAt(self, others[1..], k - 1);
    }
  }

  /**
   * The neighbour query has one row per entry whose id differs from
   * `self.id`, in store order, each carrying the verdict for that pair.
   */
  lemma NeighboursAt(s: seq<PlacedPlant>, self: PlacedPlant, k: nat)
    requires k < |Without(s, self.id)|
    ensures |Neighbours(s, self)| == |Without(s, self.id)|
    ensures Neighbours(s, self)[k].other == Without(s, self.id)[k]
    ensures Neighbours(s, self)[k].other in s
    ensures Neighbours(s, self)[k].other.id != self.id
    ensures Neighbours(s, self)[k].verdict == PairVerdict(self, Without(s, self.id)[k])
  {
    PairWithAt(self, Without(s, self.id), k);
  }

  /** Every entry with a different id appears among the neighbours. */
  lemma NeighboursCover(s: seq<PlacedPlant>, self: PlacedPlant, o: PlacedPlant)
    requires o in s && o.id != self.id
    ensures Neighbour(o, PairVerdict(self, o)) in Neighbours(s, self)
  {
    WithoutMembers(s, self.id, o);
    var k :| 0 <= k < |Without(s, self.id)| && Without(s, self.id)[k] == o;
    NeighboursAt(s, self, k);
  }

  /** The query keeps store order: it distributes over concatenation of stores. */
  lemma {:induction false} NeighboursConcat(a: seq<PlacedPlant>, b: seq<PlacedPlant>, self: PlacedPlant)
    ensures Neighbours(a + b, self) == Neighbours(a, self) + Neighbours(b, self)
  {
    WithoutConcat(a, b, self.id);
    PairWithConcat(self, Without(a, self.id), Without(b, self.id));
  }

  lemma {:induction false} PairWithConcat(self: PlacedPlant, a: seq<PlacedPlant>, b: seq<PlacedPlant>)
    ensures PairWith(self, a + b) == PairWith(self, a) + PairWith(self, b)
  {
    if a == [] {
      assert a + b == b;
    } else {
      assert (a + b)[0] == a[0];
      assert (a + b)[1..] == a[1..] + b;
      PairWithConcat(self, a[1..], b);
    }
  }

  /** With unique ids and `self` in the store, every other entry is a neighbour. */
  lemma NeighbourCount(s: seq<PlacedPlant>, self: PlacedPlant)
    requires UniqueIds(s) && self in s
    ensures |Neighbours(s, self)| == |s| - 1
  {
    RemoveUniqueDeletesOne(s, self.id);
  }

  /** `other` is closer to `self` than the pair's required spacing. */
  ghost predicate TooClose(self: PlacedPlant, other: PlacedPlant)
  {
    SquaredDistance(self, other) < RequiredSpacing(self.plant, other.plant) * RequiredSpacing(self.plant, other.plant)
  }

  /** Another entry sits closer to `self` than the pair's required spacing. */
  ghost predicate Crowded(s: seq<PlacedPlant>, self: PlacedPlant)
  {
    exists o :: o in s && o.id != self.id && TooClose(self, o)
  }

  lemma IncompatibleRowMeansCrowded(s: seq<PlacedPlant>, self: PlacedPlant)
    ensures (exists n :: n in Neighbours(s, self) && !n.verdict.compatible) ==> Crowded(s, self)
  {
    if exists n :: n in Neighbours(s, self) && !n.verdict.compatible {
      var n :| n in Neighbours(s, self) && !n.verdict.compatible;
      assert n.other in s && n.other.id != self.id && TooClose(self, n.other);
    }
  }

  lemma CrowdedMeansIncompatibleRow(s: seq<PlacedPlant>, self: PlacedPlant)
    ensures Crowded(s, self) ==> exists n :: n in Neighbours(s, self) && !n.verdict.compatible
  {
    if Crowded(s, self) {
      var o :| o in s && o.id != self.id && TooClose(self, o);
      NeighboursCover(s, self, o);
      var n := Neighbour(o, PairVerdict(self, o));
      assert n in Neighbours(s, self) && !n.verdict.compatible;
    }
  }

  /** The two economic attributes the totals sum. */
  datatype Measure = Price | Yield

  function Value(p: Plant, m: Measure): int
  {
    match m
    case Price => p.price
    case Yield => p.annualYield
  }

  /**
   * `reduce((sum, pp) => sum + value, acc)`: a left fold over the store,
   * which computes the reference sum shifted by its starting value.
   */
  function Reduce(s: seq<PlacedPlant>, m: Measure, acc: int): (r: int)
    ensures r == acc + Total(s, m)
  {
    if s == [] then acc
    else
      assert s == [s[0]] + s[1..];
      assert [s[0]][..0] == [];
      TotalConcat([s[0]], s[1..], m);
      Reduce(s[1..], m, acc + Value(s[0].plant, m))
  }

  /** The reference sum of a measure over the store. */
  function Total(s: seq<PlacedPlant>, m: Measure): int
  {
    if s == [] then 0 else Total(s[..|s| - 1], m) + Value(s[|s| - 1].plant, m)
  }

  /** The cost of every placed plant together: the sum of their prices. */
  function TotalInvestment(s: seq<PlacedPlant>): (r: int)
    ensures r == Total(s, Price)
  {
    Reduce(s, Price, 0)
  }

  /** The projected annual yield of every placed plant together: the sum of their yields. */
  function AnnualYield(s: seq<PlacedPlant>): (r: int)
    ensures r == Total(s, Yield)
  {
    Reduce(s, Yield, 0)
  }

  /** Totals add up over concatenation. */
  lemma {:induction false} TotalConcat(a: seq<PlacedPlant>, b: seq<PlacedPlant>, m: Measure)
    ensures Total(a + b, m) == Total(a, m) + Total(b, m)
  {
    if b == [] {
      assert a + b == a;
    } else {
      var c := b[..|b| - 1];
      assert (a + b)[..|a + b| - 1] == a + c;
      assert (a + b)[|a + b| - 1] == b[|b| - 1];
      TotalConcat(a, c, m);
    }
  }

  /** Appending an entry raises each total by exactly that plant's value. */
  lemma AppendRaisesTotals(s: seq<PlacedPlant>, e: PlacedPlant)
    ensures TotalInvestment(s + [e]) == TotalInvestment(s) + e.plant.price
    ensures AnnualYield(s + [e]) == AnnualYield(s) + e.plant.annualYield
  {
    assert (s + [e])[..|s|] == s;
  }

  /** A move changes no plant, so neither total changes. */
  lemma {:induction false} MoveKeepsTotals(s: seq<PlacedPlant>, id: string, x: real, y: real, m: Measure)
    ensures Total(MoveAll(s, id, x, y), m) == Total(s, m)
  {
    if s != [] {
      MoveKeepsTotals(s[1..], id, x, y, m);
      assert s == [s[0]] + s[1..];
      TotalConcat([s[0]], s[1..], m);
      TotalConcat([MoveOne(s[0], id, x, y)], MoveAll(s[1..], id, x, y), m);
      assert [s[0]][..0] == [];
      assert [MoveOne(s[0], id, x, y)][..0] == [];
    }
  }

  /** A removal lowers each total by exactly the values of the deleted entries. */
  lemma {:induction false} RemoveLowersTotals(s: seq<PlacedPlant>, id: string, m: Measure)
    ensures Total(Without(s, id), m) + Total(Matching(s, id), m) == Total(s, m)
  {
    if s != [] {
      RemoveLowersTotals(s[1..], id, m);
      assert s == [s[0]] + s[1..];
      TotalConcat([s[0]], s[1..], m);
      TotalConcat(if s[0].id != id then [s[0]] else [], Without(s[1..], id), m);
      TotalConcat(if s[0].id == id then [s[0]] else [], Matching(s[1..], id), m);
      assert [s[0]][..0] == [];
    }
  }
}
