/**
 * The Leaflet world map used by the battle screen: its tile layers, the grouping of
 * battle participants by country, the player markers, and what clicks and hovers do.
 */
module LeafletWorldMap {
  import opened Wrappers
  import opened GameTypes
  import Seqs

  datatype MapMode = Select | View

  // ------------------------------------------------------------------ layers

  datatype MapLayer = MapLayer(name: string, url: string, overlay: bool)

  /** The four tile layers, by id. */
  const MapLayers: map<string, MapLayer> := map[
    "satellite" := MapLayer("Satellite",
      "https://server.arcgisonline.com/ArcGIS/rest/services/World_Imagery/MapServer/tile/{z}/{y}/{x}", true),
    "terrain" := MapLayer("Terrain",
      "https://server.arcgisonline.com/ArcGIS/rest/services/World_Physical_Map/MapServer/tile/{z}/{y}/{x}", false),
    "dark" := MapLayer("Dark",
      "https://{s}.basemaps.cartocdn.com/dark_all/{z}/{x}/{y}{r}.png", false),
    "military" := MapLayer("Military",
      "https://server.arcgisonline.com/ArcGIS/rest/services/World_Topo_Map/MapServer/tile/{z}/{x}/{y}", false)
  ]

  /** The layer drawn for the selected layer id: an id that names no layer falls back to the dark one. */
  function CurrentLayer(layerId: string): (l: MapLayer)
    ensures l in MapLayers.Values
    ensures layerId in MapLayers ==> l == MapLayers[layerId]
    ensures layerId !in MapLayers ==> l.name == "Dark"
  {
    if layerId in MapLayers then MapLayers[layerId] else MapLayers["dark"]
  }

  /** Only the satellite layer gets the darkening overlay. */
  lemma OnlySatelliteHasOverlay(layerId: string)
    ensures CurrentLayer(layerId).overlay <==> layerId == "satellite"
  {
  }

  // ------------------------------------------------------------------ grouping

  function CountryKey(p: PvPBattleParticipant): string {
    p.countryId
  }

  /**
   * `participantsByCountry`: the participants grouped by country id, the ids in order
   * of first appearance; no battle data gives no groups.
   */
  method ParticipantsByCountry(participants: Option<seq<PvPBattleParticipant>>)
    returns (countryIds: seq<string>, groups: map<string, seq<PvPBattleParticipant>>)
    ensures participants.None? ==> countryIds == [] && groups == map[]
    ensures participants.Some? ==> countryIds == Seqs.KeysInOrder(participants.value, CountryKey)
    ensures forall k :: k in groups <==> k in countryIds
    ensures forall k :: k in groups ==> groups[k] == Seqs.Bucket(participants.value, CountryKey, k)
  {
    if participants.None? {
      return [], map[];
    }
    countryIds, groups := Seqs.GroupBy(participants.value, CountryKey);
  }

  /**
   * Each participant lies in exactly one group, the one of its own country, and the
   * groups together hold every participant once.
   */
  lemma ParticipantsByCountryPartition(participants: seq<PvPBattleParticipant>, p: PvPBattleParticipant, k: string)
    requires k in Seqs.KeysInOrder(participants, CountryKey)
    ensures p in participants ==> p.countryId in Seqs.KeysInOrder(participants, CountryKey)
    ensures p in Seqs.Bucket(participants, CountryKey, k) <==> p in participants && p.countryId == k
    ensures multiset(Seqs.Concat(participants, CountryKey, Seqs.KeysInOrder(participants, CountryKey)))
      == multiset(participants)
  {
    Seqs.BucketMembership(participants, CountryKey, k, p);
    if p in participants {
      var i :| 0 <= i < |participants| && participants[i] == p;
      assert CountryKey(participants[i]) in Seqs.KeysInOrder(participants, CountryKey);
    }
    Seqs.BucketsPartition(participants, CountryKey);
  }

  // ------------------------------------------------------------------ markers

  datatype Coords = Coords(lat: real, lng: real)

  /**
   * `generatePlayerPositions`: a lone player of a country sits on the country's
   * coordinates; `ring` stands for the placement on a circle around them used otherwise.
   */
  function PlayerPosition(base: Coords, playerCount: int, playerIndex: int,
                          ring: (Coords, int, int) -> Coords): (c: Coords)
    ensures playerCount == 1 ==> c == base
  {
    if playerCount == 1 then base else ring(base, playerCount, playerIndex)
  }

  /** The battle-related fields of the `battleData` prop. */
  datatype BattleView = BattleView(
    currentPlayer: Option<string>,
    currentTurn: Option<string>,
    selectedTarget: Option<string>,
    targetMode: bool)

  datatype Marker = Marker(
    participant: PvPBattleParticipant,
    country: Country,
    position: Coords,
    isSelected: bool,
    isCurrentPlayer: bool,
    isCurrentTurn: bool,
    canTarget: bool)

  /** How the map looks countries up: by id, and their coordinates by country id. */
  datatype Atlas = Atlas(
    countryById: string -> Option<Country>,
    coordinates: string -> Option<Coords>,
    ring: (Coords, int, int) -> Coords)

  /** A country id the map can draw: the country is known and has coordinates. */
  predicate Placeable(atlas: Atlas, countryId: string) {
    atlas.countryById(countryId).Some? && atlas.coordinates(atlas.countryById(countryId).value.id).Some?
  }

  function MarkerFor(p: PvPBattleParticipant, c: Country, position: Coords, view: BattleView): Marker {
    Marker(p, c, position,
      view.selectedTarget.Some? && view.selectedTarget.value == p.playerId,
      IsPlayer(p, view.currentPlayer),
      view.currentTurn.Some? && view.currentTurn.value == p.playerId,
      Targetable(p, view.currentPlayer))
  }

  /** The markers of one country's group, or none when the country cannot be placed. */
  function GroupMarkers(countryId: string, group: seq<PvPBattleParticipant>, atlas: Atlas, view: BattleView)
    : (r: seq<Marker>)
    ensures Placeable(atlas, countryId) ==> |r| == |group| && forall i :: 0 <= i < |r| ==> r[i].participant == group[i]
    ensures !Placeable(atlas, countryId) ==> r == []
  {
    if !Placeable(atlas, countryId) then []
    else
      var c := atlas.countryById(countryId).value;
      var base := atlas.coordinates(c.id).value;
      seq(|group|, i requires 0 <= i < |group| =>
        MarkerFor(group[i], c, PlayerPosition(base, |group|, i, atlas.ring), view))
  }

  /** The markers of the groups named in `countryIds`, group by group. */
  function Markers(participants: seq<PvPBattleParticipant>, countryIds: seq<string>, atlas: Atlas, view: BattleView)
    : seq<Marker>
  {
    if countryIds == [] then []
    else
      var k := countryIds[0];
      GroupMarkers(k, Seqs.Bucket(participants, CountryKey, k), atlas, view) + Markers(participants, countryIds[1..], atlas, view)
  }

  predicate HasMarker(ms: seq<Marker>, p: PvPBattleParticipant) {
    exists m :: m in ms && m.participant == p
  }

  lemma {:induction false} MarkersFromGroups(participants: seq<PvPBattleParticipant>, countryIds: seq<string>,
                                             atlas: Atlas, view: BattleView, p: PvPBattleParticipant)
    requires p in participants
    ensures HasMarker(Markers(participants, countryIds, atlas, view), p) <==>
      p.countryId in countryIds && Placeable(atlas, p.countryId)
    decreases |countryIds|
  {
    if countryIds != [] {
      var k := countryIds[0];
      var g := Seqs.Bucket(participants, CountryKey, k);
      MarkersFromGroups(participants, countryIds[1..], atlas, view, p);
      HasMarkerAppend(GroupMarkers(k, g, atlas, view), Markers(participants, countryIds[1..], atlas, view), p);
      GroupHasMarker(k, g, atlas, view, p);
      Seqs.BucketMembership(participants, CountryKey, k, p);
    }
  }

  lemma HasMarkerAppend(a: seq<Marker>, b: seq<Marker>, p: PvPBattleParticipant)
    ensures HasMarker(a + b, p) <==> HasMarker(a, p) || HasMarker(b, p)
  {
    if HasMarker(a + b, p) {
      var m :| m in a + b && m.participant == p;
      assert m in a || m in b;
    }
    if HasMarker(a, p) {
      var m :| m in a && m.participant == p;
      assert m in a + b;
    }
    if HasMarker(b, p) {
      var m :| m in b && m.participant == p;
      assert m in a + b;
    }
  }

  lemma GroupHasMarker(k: string, g: seq<PvPBattleParticipant>, atlas: Atlas, view: BattleView, p: PvPBattleParticipant)
    ensures HasMarker(GroupMarkers(k, g, atlas, view), p) <==> Placeable(atlas, k) && p in g
  {
    var head := GroupMarkers(k, g, atlas, view);
    if Placeable(atlas, k) && p in g {
      var i :| 0 <= i < |g| && g[i] == p;
      assert head[i] in head;
    }
    if HasMarker(head, p) {
      var m :| m in head && m.participant == p;
      var i :| 0 <= i < |head| && head[i] == m;
      assert g[i] in g;
    }
  }


  /**
   * A participant gets a marker exactly when its country is known and has coordinates,
   * and every marker's `canTarget` says whether the player may attack that participant.
   */
  lemma MarkerShownExactly(participants: seq<PvPBattleParticipant>, atlas: Atlas, view: BattleView,
                           p: PvPBattleParticipant)
    requires p in participants
    ensures var ms := Markers(participants, Seqs.KeysInOrder(participants, CountryKey), atlas, view);
      HasMarker(ms, p) <==> Placeable(atlas, p.countryId)
  {
    var i :| 0 <= i < |participants| && participants[i] == p;
    assert CountryKey(participants[i]) in Seqs.KeysInOrder(participants, CountryKey);
    MarkersFromGroups(participants, Seqs.KeysInOrder(participants, CountryKey), atlas, view, p);
  }

  /** A marker may be targeted exactly when its participant is still in and is not the player. */
  lemma {:induction false} MarkerCanTarget(participants: seq<PvPBattleParticipant>, countryIds: seq<string>,
                                           atlas: Atlas, view: BattleView, m: Marker)
    requires m in Markers(participants, countryIds, atlas, view)
    ensures m.canTarget <==> !m.participant.isEliminated && !IsPlayer(m.participant, view.currentPlayer)
    decreases |countryIds|
  {
    var k := countryIds[0];
    var head := GroupMarkers(k, Seqs.Bucket(participants, CountryKey, k), atlas, view);
    if m !in head {
      MarkerCanTarget(participants, countryIds[1..], atlas, view, m);
    }
  }

  // ------------------------------------------------------------------ interaction

  /**
   * `handlePlayerClick`: the id passed to `onCountrySelect`.  `targetMode` is the
   * optional `battleData?.targetMode`.
   */
  function PlayerClick(mode: MapMode, targetMode: Option<bool>, p: PvPBattleParticipant): (r: Option<string>)
    ensures r.Some? <==> mode == Select && targetMode == Some(true)
    ensures r.Some? ==> r.value == p.playerId
  {
    if mode == Select && targetMode == Some(true) then Some(p.playerId) else None
  }

  /** The hovered-player state. */
  class HoverState {
    var hoveredPlayer: Option<PvPBattleParticipant>

    constructor ()
      ensures hoveredPlayer.None?
    {
      hoveredPlayer := None;
    }

    /**
     * The pointer enters a marker.  In target mode the marker has no hover handlers at
     * all; otherwise the map records the participant only in view mode.
     */
    method MouseEnter(mode: MapMode, targetMode: bool, p: PvPBattleParticipant)
      modifies this
      ensures hoveredPlayer == if mode == View && !targetMode then Some(p) else old(hoveredPlayer)
    {
      if !targetMode && mode == View {
        hoveredPlayer := Some(p);
      }
    }

    /** The pointer leaves a marker. */
    method MouseLeave(mode: MapMode, targetMode: bool)
      modifies this
      ensures hoveredPlayer == if mode == View && !targetMode then None else old(hoveredPlayer)
    {
      if !targetMode && mode == View {
        hoveredPlayer := None;
      }
    }
  }
}
