/** The fixed zone-to-coordinate table and the lookup that attaches a map
    anchor to every loaded row, falling back to the Central anchor. */
module Zones {

  /** A latitude/longitude pair in degrees. */
  datatype Anchor = Anchor(lat: real, lon: real)

  /** The five known zones and their anchor coordinates. */
  const ZoneCoords: map<string, Anchor> := map[
    "North"   := Anchor(28.61, 77.20),
    "West"    := Anchor(19.07, 72.87),
    "East"    := Anchor(22.57, 88.36),
    "South"   := Anchor(12.97, 77.59),
    "Central" := Anchor(21.14, 79.08)
  ]

  /** The zone whose anchor is used when a row's zone is not in the table. */
  const DefaultZone: string := "Central"

  /** The table entry a zone resolves to: the zone itself when it is a key of
      the table, otherwise the default zone. */
  function EntryFor(zone: string): (k: string)
    ensures k in ZoneCoords
    ensures zone in ZoneCoords ==> k == zone
    ensures zone !in ZoneCoords ==> k == DefaultZone
  {
    if zone in ZoneCoords then zone else DefaultZone
  }

  /** `ZONE_COORDS.get(zone, ZONE_COORDS['Central'])`. */
  function Lookup(zone: string): (a: Anchor)
    ensures zone in ZoneCoords ==> a == ZoneCoords[zone]
    ensures zone !in ZoneCoords ==> a == Anchor(21.14, 79.08)
    ensures a in ZoneCoords.Values
  {
    ZoneCoords[EntryFor(zone)]
  }

  /** The `Lat` column's value for a zone. */
  function LatOf(zone: string): real {
    Lookup(zone).lat
  }

  /** The `Lon` column's value for a zone. */
  function LonOf(zone: string): real {
    Lookup(zone).lon
  }

  /** Although `Lat` and `Lon` are looked up separately, both come from the same
      table entry, the one the zone resolves to. */
  lemma AnchorFromOneEntry(zone: string)
    ensures Anchor(LatOf(zone), LonOf(zone)) == ZoneCoords[EntryFor(zone)]
    ensures zone !in ZoneCoords ==> Anchor(LatOf(zone), LonOf(zone)) == ZoneCoords[DefaultZone]
  {
  }

  /** Distinct known zones have distinct anchors, so a known zone can be told
      back from its coordinates. */
  lemma KnownAnchorsDistinct(z1: string, z2: string)
    requires z1 in ZoneCoords && z2 in ZoneCoords
    requires Lookup(z1) == Lookup(z2)
    ensures z1 == z2
  {
  }

  /** A zone missing from the table, such as "Unknown", gets Central's anchor. */
  lemma UnknownZoneIsCentral()
    ensures Lookup("Unknown") == Anchor(21.14, 79.08)
    ensures Lookup("north") == Lookup("Central")
  {
  }
}
