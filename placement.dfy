/**
 * The placement store: the ordered list of plants placed on the canvas, the
 * catalog plant being dragged in from the database panel, and the placed
 * plant selected for inspection.
 */
module Placement {
  import opened Wrappers
  import opened Plants
  import opened Canvas

  /** A plant on the canvas: a shared catalog record, the top-left anchor of its footprint, an instance id. */
  datatype PlacedPlant = PlacedPlant(plant: Plant, x: real, y: real, id: string)

  /** The entries whose id differs from `id`, in store order (the removal filter). */
  function Without(s: seq<PlacedPlant>, id: string): (r: seq<PlacedPlant>)
    ensures |r| <= |s|
    ensures forall e :: e in r ==> e in s && e.id != id
  {
    if s == [] then []
    else (if s[0].id != id then [s[0]] else []) + Without(s[1..], id)
  }

  /** The entries whose id is `id`, in store order: what a removal deletes. */
  function Matching(s: seq<PlacedPlant>, id: string): (r: seq<PlacedPlant>)
    ensures |r| <= |s|
    ensures forall e :: e in r ==> e in s && e.id == id
  {
    if s == [] then []
    else (if s[0].id == id then [s[0]] else []) + Matching(s[1..], id)
  }

  /** The entry `e` with its anchor moved to (x, y) when its id is `id`; plant and id never change. */
  function MoveOne(e: PlacedPlant, id: string, x: real, y: real): (r: PlacedPlant)
    ensures r.plant == e.plant && r.id == e.id
    ensures e.id == id ==> r.x == x && r.y == y
    ensures e.id != id ==> r == e
  {
    if e.id == id then e.(x := x, y := y) else e
  }

  /** Every entry with id `id` moved to (x, y); no clamping happens here. */
  function MoveAll(s: seq<PlacedPlant>, id: string, x: real, y: real): (r: seq<PlacedPlant>)
    ensures |r| == |s|
  {
    if s == [] then [] else [MoveOne(s[0], id, x, y)] + MoveAll(s[1..], id, x, y)
  }

  /**
   * Where a drop lands before clamping: the anchor that puts the footprint's
   * centre at the pointer, measured from `area`, the on-screen corner of the
   * design area that receives the drop.
   */
  function DropCentre(pointer: Point, area: Point, spacing: nat): (r: Point)
    ensures r.x + spacing as real / 2.0 == pointer.x - area.x
    ensures r.y + spacing as real / 2.0 == pointer.y - area.y
  {
    Point(pointer.x - area.x - spacing as real / 2.0, pointer.y - area.y - spacing as real / 2.0)
  }

  /**
   * The entry a drop creates: the dragged plant, centred under the pointer as
   * measured from the design area's corner `area` and clamped onto the canvas,
   * with id `<plant id>_<stamp>` where `stamp` is the caller's rendering of the
   * current time.
   */
  function Dropped(plant: Plant, pointer: Point, area: Point, stamp: string): (r: PlacedPlant)
    ensures r.plant == plant && r.id == plant.id + "_" + stamp
    ensures plant.spacing as real <= Height ==> Fits(r.x, r.y, plant.spacing)
    ensures var c := DropCentre(pointer, area, plant.spacing);
      Fits(c.x, c.y, plant.spacing) ==> r.x == c.x && r.y == c.y
  {
    var c := DropCentre(pointer, area, plant.spacing);
    ClampedFits(c.x, c.y, plant.spacing);
    PlacedPlant(plant, ClampX(c.x, plant.spacing), ClampY(c.y, plant.spacing), plant.id + "_" + stamp)
  }

  /**
   * Placed plants are drawn inside the design content, whose on-screen corner
   * `content` is that of the design area shifted by scrolling and padding.
   * A drop that needs no clamping puts the footprint's centre under the
   * pointer, in the content's coordinates, exactly when the two corners
   * coincide; otherwise it is off by their difference.
   */
  lemma DropCentredInContent(plant: Plant, pointer: Point, area: Point, content: Point, stamp: string)
    requires var c := DropCentre(pointer, area, plant.spacing); Fits(c.x, c.y, plant.spacing)
    ensures var e := Dropped(plant, pointer, area, stamp);
      && e.x + plant.spacing as real / 2.0 == pointer.x - content.x + (content.x - area.x)
      && e.y + plant.spacing as real / 2.0 == pointer.y - content.y + (content.y - area.y)
      && ((e.x + plant.spacing as real / 2.0 == pointer.x - content.x &&
           e.y + plant.spacing as real / 2.0 == pointer.y - content.y) <==> area == content)
  {
  }

  /** No two entries share an id. */
  ghost predicate UniqueIds(s: seq<PlacedPlant>)
  {
    forall i, j :: 0 <= i < j < |s| ==> s[i].id != s[j].id
  }

  /** Some entry carries id `id`. */
  ghost predicate HasId(s: seq<PlacedPlant>, id: string)
  {
    exists e :: e in s && e.id == id
  }

  /** Every entry's footprint lies on the canvas. */
  ghost predicate AllFit(s: seq<PlacedPlant>)
  {
    forall e :: e in s ==> Fits(e.x, e.y, e.plant.spacing)
  }

  /** Removal keeps exactly the entries whose id differs. */
  lemma {:induction false} WithoutMembers(s: seq<PlacedPlant>, id: string, e: PlacedPlant)
    ensures e in Without(s, id) <==> e in s && e.id != id
  {
    if s != [] {
      WithoutMembers(s[1..], id, e);
      assert s == [s[0]] + s[1..];
    }
  }

  /** Removal keeps the store order: it distributes over concatenation. */
  lemma {:induction false} WithoutConcat(a: seq<PlacedPlant>, b: seq<PlacedPlant>, id: string)
    ensures Without(a + b, id) == Without(a, id) + Without(b, id)
  {
    if a == [] {
      assert a + b == b;
    } else {
      assert (a + b)[0] == a[0];
      assert (a + b)[1..] == a[1..] + b;
      WithoutConcat(a[1..], b, id);
    }
  }

  /** Removing an id that no entry carries leaves the store as it is. */
  lemma {:induction false} WithoutAbsent(s: seq<PlacedPlant>, id: string)
    requires !HasId(s, id)
    ensures Without(s, id) == s
    ensures Matching(s, id) == []
  {
    if s != [] {
      assert s[0] in s;
      assert !HasId(s[1..], id) by {
        forall e | e in s[1..] ensures e.id != id { assert e in s; }
      }
      WithoutAbsent(s[1..], id);
      assert s == [s[0]] + s[1..];
    }
  }

  /** Every entry is either kept or deleted by a removal. */
  lemma {:induction false} RemovalSplits(s: seq<PlacedPlant>, id: string)
    ensures |Without(s, id)| + |Matching(s, id)| == |s|
  {
    if s != [] {
      RemovalSplits(s[1..], id);
    }
  }

  /** With unique ids, removing a present id deletes exactly one entry. */
  lemma {:induction false} RemoveUniqueDeletesOne(s: seq<PlacedPlant>, id: string)
    requires UniqueIds(s) && HasId(s, id)
    ensures |Matching(s, id)| == 1
    ensures |Without(s, id)| == |s| - 1
  {
    RemovalSplits(s, id);
    var rest := s[1..];
    assert UniqueIds(rest) by {
      forall i, j | 0 <= i < j < |rest| ensures rest[i].id != rest[j].id {
        assert rest[i] == s[i + 1] && rest[j] == s[j + 1];
      }
    }
    if s[0].id == id {
      assert !HasId(rest, id) by {
        forall e | e in rest ensures e.id != id {
          var j :| 0 <= j < |rest| && rest[j] == e;
          assert s[j + 1] == e;
        }
      }
      WithoutAbsent(rest, id);
    } else {
      assert HasId(rest, id) by {
        var e :| e in s && e.id == id;
        var j :| 0 <= j < |s| && s[j] == e;
        assert j != 0;
        assert rest[j - 1] == e;
      }
      RemoveUniqueDeletesOne(rest, id);
    }
  }

  /** Removal keeps ids unique. */
  lemma {:induction false} WithoutKeepsUnique(s: seq<PlacedPlant>, id: string)
    requires UniqueIds(s)
    ensures UniqueIds(Without(s, id))
  {
    if s != [] {
      var rest := s[1..];
      assert UniqueIds(rest) by {
        forall i, j | 0 <= i < j < |rest| ensures rest[i].id != rest[j].id {
          assert rest[i] == s[i + 1] && rest[j] == s[j + 1];
        }
      }
      WithoutKeepsUnique(rest, id);
      if s[0].id != id {
        var r := Without(s, id);
        assert r == [s[0]] + Without(rest, id);
        forall i, j | 0 <= i < j < |r| ensures r[i].id != r[j].id {
          if i == 0 {
            assert r[j] in Without(rest, id);
            WithoutMembers(rest, id, r[j]);
            var k :| 0 <= k < |rest| && rest[k] == r[j];
            assert s[k + 1] == r[j];
          }
        }
      }
    }
  }

  /**
   * A move rewrites the anchor of every entry with the id and nothing else:
   * ids, plants and order stay, and other entries are untouched.
   */
  lemma {:induction false} MoveAllAt(s: seq<PlacedPlant>, id: string, x: real, y: real, k: nat)
    requires k < |s|
    ensures MoveAll(s, id, x, y)[k].plant == s[k].plant
    ensures MoveAll(s, id, x, y)[k].id == s[k].id
    ensures s[k].id == id ==> MoveAll(s, id, x, y)[k].x == x && MoveAll(s, id, x, y)[k].y == y
    ensures s[k].id != id ==> MoveAll(s, id, x, y)[k] == s[k]
  {
    if k > 0 {
      MoveAllAt(s[1..], id, x, y, k - 1);
    }
  }

  /** Moving an id that no entry carries leaves the store as it is. */
  lemma MoveAllAbsent(s: seq<PlacedPlant>, id: string, x: real, y: real)
    requires !HasId(s, id)
    ensures MoveAll(s, id, x, y) == s
  {
    forall k | 0 <= k < |s| ensures MoveAll(s, id, x, y)[k] == s[k] {
      assert s[k] in s;
      MoveAllAt(s, id, x, y, k);
    }
  }

  /** A move to a position where every moved footprint fits keeps the whole store on the canvas. */
  lemma MoveAllKeepsFit(s: seq<PlacedPlant>, id: string, x: real, y: real)
    requires AllFit(s)
    requires forall e :: e in s && e.id == id ==> Fits(x, y, e.plant.spacing)
    ensures AllFit(MoveAll(s, id, x, y))
  {
    var r := MoveAll(s, id, x, y);
    forall e | e in r ensures Fits(e.x, e.y, e.plant.spacing) {
      var k :| 0 <= k < |r| && r[k] == e;
      MoveAllAt(s, id, x, y, k);
      assert s[k] in s;
    }
  }

  /** A move keeps ids unique, since it never changes an id. */
  lemma MoveAllKeepsUnique(s: seq<PlacedPlant>, id: string, x: real, y: real)
    requires UniqueIds(s)
    ensures UniqueIds(MoveAll(s, id, x, y))
  {
    var r := MoveAll(s, id, x, y);
    forall i, j | 0 <= i < j < |r| ensures r[i].id != r[j].id {
      MoveAllAt(s, id, x, y, i);
      MoveAllAt(s, id, x, y, j);
    }
  }

  /** Appending an entry with a fresh id keeps ids unique. */
  lemma AppendFreshKeepsUnique(s: seq<PlacedPlant>, e: PlacedPlant)
    requires UniqueIds(s) && !HasId(s, e.id)
    ensures UniqueIds(s + [e])
  {
    var r := s + [e];
    forall i, j | 0 <= i < j < |r| ensures r[i].id != r[j].id {
      if j == |s| {
        assert r[i] == s[i] && s[i] in s;
      } else {
        assert r[i] == s[i] && r[j] == s[j];
      }
    }
  }

  /** The application state that owns the placed plants. */
  class Store {
    /** The placed plants, in the order they were added. */
    var placed: seq<PlacedPlant>
    /** The catalog plant whose drag from the database panel is in progress, if any. */
    var dragged: Option<Plant>
    /** The placed plant last clicked, as it was when clicked. */
    var selected: Option<PlacedPlant>

    constructor ()
      ensures placed == [] && dragged == None && selected == None
    {
      placed := [];
      dragged := None;
      selected := None;
    }

    /** A drag of a catalog card starts: remember the plant. */
    method DragStart(plant: Plant)
      modifies this`dragged
      ensures dragged == Some(plant)
    {
      dragged := Some(plant);
    }

    /**
     * A drop at `pointer` on the design area, whose on-screen top-left corner
     * is `area`:
     * without a dragged plant nothing happens; otherwise one entry is appended
     * and the drag ends.
     */
    method Drop(pointer: Point, area: Point, stamp: string)
      modifies this`placed, this`dragged
      ensures old(dragged).None? ==> placed == old(placed) && dragged == None
      ensures old(dragged).Some? ==>
        && |placed| == |old(placed)| + 1
        && placed[..|old(placed)|] == old(placed)
        && placed[|old(placed)|] == Dropped(old(dragged).value, pointer, area, stamp)
        && dragged == None
      ensures old(AllFit(placed)) && (old(dragged).Some? ==> old(dragged).value.spacing as real <= Height)
        ==> AllFit(placed)
      ensures old(UniqueIds(placed)) &&
        (old(dragged).Some? ==> !old(HasId(placed, dragged.value.id + "_" + stamp)))
        ==> UniqueIds(placed)
    {
      if dragged.None? {
        return;
      }
      var entry := Dropped(dragged.value, pointer, area, stamp);
      if UniqueIds(placed) && !HasId(placed, entry.id) {
        AppendFreshKeepsUnique(placed, entry);
      }
      placed := placed + [entry];
      dragged := None;
    }

    /**
     * Removal of every entry with id `id`; the selection is cleared when it
     * names that id.
     */
    method Remove(id: string)
      modifies this`placed, this`selected
      ensures placed == Without(old(placed), id)
      ensures old(selected).Some? && old(selected).value.id == id ==> selected == None
      ensures !(old(selected).Some? && old(selected).value.id == id) ==> selected == old(selected)
      ensures old(AllFit(placed)) ==> AllFit(placed)
      ensures old(UniqueIds(placed)) ==> UniqueIds(placed)
    {
      placed := Without(placed, id);
      if UniqueIds(old(placed)) {
        WithoutKeepsUnique(old(placed), id);
      }
      if selected.Some? && selected.value.id == id {
        selected := None;
      }
    }

    /** Every entry with id `id` gets anchor (x, y), unclamped. */
    method Move(id: string, x: real, y: real)
      modifies this`placed
      ensures placed == MoveAll(old(placed), id, x, y)
      ensures old(UniqueIds(placed)) ==> UniqueIds(placed)
    {
      placed := MoveAll(placed, id, x, y);
      if UniqueIds(old(placed)) {
        MoveAllKeepsUnique(old(placed), id, x, y);
      }
    }

    /** A click on a placed plant selects it. */
    method Select(entry: PlacedPlant)
      modifies this`selected
      ensures selected == Some(entry)
    {
      selected := Some(entry);
    }
  }
}
