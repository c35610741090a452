/**
 * Catalog entries of the plant database. Only the fields that the placement
 * and compatibility logic reads are kept; descriptive text (name, variety,
 * hardiness, sources, ...) is not part of this model.
 */
module Plants {

  /** The canopy stratum a plant occupies. */
  datatype Layer = Overstory | Understory | Shrub | Herbaceous | Groundcover | Vine | Root

  /**
   * A catalog record. `spacing` is the footprint diameter in inches,
   * `nitrogenFixer` is false where the record leaves the optional flag out,
   * `compatibleGuilds` keeps the record's own order.
   */
  datatype Plant = Plant(
    id: string,
    spacing: nat,
    layer: Layer,
    nitrogenFixer: bool,
    compatibleGuilds: seq<int>,
    price: int,
    annualYield: int)

  const Apple := Plant("apple_prairie_sensation", 180, Overstory, false, [1, 6], 35, 150)
  const Elderberry := Plant("elderberry_adams", 96, Understory, false, [2, 5, 6], 20, 160)
  const Asparagus := Plant("asparagus_jersey_knight", 18, Herbaceous, false, [1, 3, 4, 7, 8], 3, 8)
  const Currant := Plant("currant_red_lake", 60, Shrub, false, [1, 4, 5, 6], 18, 36)
  const BlackAlder := Plant("black_alder", 300, Overstory, true, [2, 3, 6], 25, 0)
  const WhiteClover := Plant("white_clover", 6, Groundcover, true, [1, 2, 3, 6, 7, 8], 5, 0)
  const WildStrawberry := Plant("wild_strawberry", 12, Groundcover, false, [1, 2, 3, 4, 5, 6], 8, 24)

  /** The Minnesota plant database, in its declared order. */
  const Catalog: seq<Plant> := [Apple, Elderberry, Asparagus, Currant, BlackAlder, WhiteClover, WildStrawberry]

  /** Every catalog identity occurs once. */
  ghost predicate DistinctIds(plants: seq<Plant>)
  {
    forall i, j :: 0 <= i < j < |plants| ==> plants[i].id != plants[j].id
  }

  /** Every catalog footprint is positive and fits the 800-unit canvas height. */
  ghost predicate FootprintsFit(plants: seq<Plant>)
  {
    forall i :: 0 <= i < |plants| ==> 0 < plants[i].spacing <= 800
  }

  /** The catalog satisfies the data model's assumptions about its records. */
  lemma CatalogWellFormed()
    ensures |Catalog| == 7
    ensures DistinctIds(Catalog)
    ensures FootprintsFit(Catalog)
  {
  }
}
