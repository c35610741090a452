/**
 * Concrete behaviour of the engine on catalog plants: the asymmetry of the
 * rule chain, the classic apple guild, a spacing violation and a drag that
 * runs off the canvas.
 */
module Scenarios {
  import opened Wrappers
  import opened Plants
  import opened Compatibility
  import opened Canvas
  import opened Placement
  import opened Inspection
  import opened Drag

  /**
   * Evaluation is directional: beside a black alder an apple tree gets the
   * nitrogen verdict, while the alder beside the apple tree (an overstory
   * plant that fixes no nitrogen) falls through to their shared guild 6.
   */
  lemma AppleAlderAsymmetry(distance: real)
    requires distance >= 240.0
    ensures Evaluate(Apple, BlackAlder, distance) == Verdict(true, NitrogenFertilizer, Beneficial)
    ensures Evaluate(BlackAlder, Apple, distance) == Verdict(true, SharedGuilds([6]), Beneficial)
    ensures Evaluate(Apple, BlackAlder, distance) != Evaluate(BlackAlder, Apple, distance)
  {
    assert Shared([2, 3, 6], [1, 6]) == [6] by {
      assert [2, 3, 6][1..] == [3, 6];
      assert [3, 6][1..] == [6];
      assert [6][1..] == [];
    }
  }

  /** The apple and elderberry entries of the classic apple guild. */
  const AppleCentre := PlacedPlant(Apple, 300.0, 200.0, "apple_center")
  const ElderberryNorth := PlacedPlant(Elderberry, 150.0, 100.0, "elderberry_north")

  /**
   * The apple tree at (300, 200) and the elderberry at (150, 100) are about
   * 180 apart, more than the 138 they need, and share guild 6: the apple's
   * only neighbour is the elderberry, judged beneficial.
   */
  lemma ClassicGuildNeighbours()
    ensures Neighbours([AppleCentre, ElderberryNorth], AppleCentre)
      == [Neighbour(ElderberryNorth, Verdict(true, SharedGuilds([6]), Beneficial))]
    ensures !HasIssues([AppleCentre, ElderberryNorth], AppleCentre)
  {
    var s := [AppleCentre, ElderberryNorth];
    assert Without(s, AppleCentre.id) == [ElderberryNorth] by {
      assert s[1..] == [ElderberryNorth];
      assert s[1..][1..] == [];
    }
    assert SquaredDistance(AppleCentre, ElderberryNorth) == 32500.0;
    assert RequiredSpacing(Apple, Elderberry) == 138.0;
    assert Shared([1, 6], [2, 5, 6]) == [6] by {
      assert [1, 6][1..] == [6];
      assert [6][1..] == [];
    }
    assert PairWith(AppleCentre, [ElderberryNorth])
      == [Neighbour(ElderberryNorth, Verdict(true, SharedGuilds([6]), Beneficial))] by {
      assert [ElderberryNorth][1..] == [];
    }
  }

  /** The same two plants only 60 apart violate their 138-inch clearance. */
  lemma CrowdedGuild()
    ensures Evaluate(Apple, Elderberry, 60.0) == Verdict(false, SpacingViolation(138.0), Harmful)
  {
  }

  /**
   * An elderberry (footprint 96) dragged so that its anchor would be at
   * (-50, 900) ends at (0, 704), the nearest position on the 1000 x 800 canvas.
   */
  method DragOffCanvas() returns (x: real, y: real)
    ensures x == 0.0 && y == 704.0
  {
    var store := new Store();
    store.DragStart(Elderberry);
    // Dropped with the pointer at (200, 200) on an unscrolled design area whose corner,
    // like the design content's, is at (0, 0):
    // the anchor is (152, 152).
    store.Drop(Point(200.0, 200.0), Point(0.0, 0.0), "1");
    assert "elderberry_adams" + "_" + "1" == "elderberry_adams_1";
    assert DropCentre(Point(200.0, 200.0), Point(0.0, 0.0), 96) == Point(152.0, 152.0);
    assert store.placed == [PlacedPlant(Elderberry, 152.0, 152.0, "elderberry_adams_1")];
    var handle := new Handle("elderberry_adams_1", Elderberry.spacing);
    handle.MouseDown(false, Point(160.0, 160.0), Point(152.0, 152.0));
    handle.MouseMove(store, Point(-42.0, 908.0), Some(Point(0.0, 0.0)));
    handle.MouseUp();
    MoveAllAt([PlacedPlant(Elderberry, 152.0, 152.0, "elderberry_adams_1")], "elderberry_adams_1", 0.0, 704.0, 0);
    x, y := store.placed[0].x, store.placed[0].y;
  }

  /** A press on the remove button starts no drag, so a later move changes nothing. */
  method PressOnRemoveButton() returns (unchangedStore: bool)
    ensures unchangedStore
  {
    var store := new Store();
    store.DragStart(Currant);
    store.Drop(Point(500.0, 400.0), Point(0.0, 0.0), "7");
    var before := store.placed;
    var handle := new Handle("currant_red_lake_7", Currant.spacing);
    handle.MouseDown(true, Point(510.0, 410.0), Point(470.0, 370.0));
    handle.MouseMove(store, Point(100.0, 100.0), Some(Point(0.0, 0.0)));
    unchangedStore := store.placed == before;
  }
}
