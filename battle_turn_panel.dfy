/**
 * The turn panel: the list of targets split into civil-war and foreign sections, the
 * weapon buttons with their damage preview, and weapon selection.
 */
module BattleTurnPanel {
  import opened Wrappers
  import opened GameTypes
  import Seqs
  import BattleArena

  // ------------------------------------------------------------------ targets

  /** The name a target is listed under: its country name, or "Unknown" when that is empty. */
  function CountryNameKey(t: PvPBattleParticipant): string {
    if t.countryName == "" then "Unknown" else t.countryName
  }

  /** `targetsByCountry`, built by pushing each target into the list of its country name. */
  method TargetsByCountry(targets: seq<PvPBattleParticipant>)
    returns (names: seq<string>, groups: map<string, seq<PvPBattleParticipant>>)
    ensures names == Seqs.KeysInOrder(targets, CountryNameKey)
    ensures forall k :: k in groups <==> k in names
    ensures forall k :: k in groups ==> groups[k] == Seqs.Bucket(targets, CountryNameKey, k)
  {
    names, groups := Seqs.GroupBy(targets, CountryNameKey);
  }

  /** Every target is listed exactly once, under its own country name. */
  lemma TargetsByCountryPlacesEachOnce(targets: seq<PvPBattleParticipant>, t: PvPBattleParticipant, k: string)
    ensures t in Seqs.Bucket(targets, CountryNameKey, k) <==> t in targets && CountryNameKey(t) == k
    ensures t in targets ==> CountryNameKey(t) in Seqs.KeysInOrder(targets, CountryNameKey)
    ensures multiset(Seqs.Concat(targets, CountryNameKey, Seqs.KeysInOrder(targets, CountryNameKey)))
      == multiset(targets)
  {
    Seqs.BucketMembership(targets, CountryNameKey, k, t);
    if t in targets {
      var i :| 0 <= i < |targets| && targets[i] == t;
      assert CountryNameKey(targets[i]) in Seqs.KeysInOrder(targets, CountryNameKey);
    }
    Seqs.BucketsPartition(targets, CountryNameKey);
  }

  /** A target from the player's own country; with no player there is none. */
  predicate IsCivil(playerCountry: Option<string>, t: PvPBattleParticipant) {
    playerCountry.Some? && t.countryId == playerCountry.value
  }

  function CivilWarTargets(targets: seq<PvPBattleParticipant>, playerCountry: Option<string>): seq<PvPBattleParticipant> {
    Seqs.Filter(targets, t => IsCivil(playerCountry, t))
  }

  function ForeignTargets(targets: seq<PvPBattleParticipant>, playerCountry: Option<string>): seq<PvPBattleParticipant> {
    Seqs.Filter(targets, t => !IsCivil(playerCountry, t))
  }

  /**
   * The civil-war and foreign lists split the targets: each target is in exactly one of
   * them, together they hold every target, and each keeps the targets' order.
   */
  lemma CivilForeignPartition(targets: seq<PvPBattleParticipant>, playerCountry: Option<string>, t: PvPBattleParticipant)
    ensures multiset(CivilWarTargets(targets, playerCountry)) + multiset(ForeignTargets(targets, playerCountry))
      == multiset(targets)
    ensures !(t in CivilWarTargets(targets, playerCountry) && t in ForeignTargets(targets, playerCountry))
    ensures Seqs.IsSubseq(CivilWarTargets(targets, playerCountry), targets)
    ensures Seqs.IsSubseq(ForeignTargets(targets, playerCountry), targets)
  {
    Seqs.FilterPartition(targets, t => IsCivil(playerCountry, t), t => !IsCivil(playerCountry, t));
    Seqs.FilterMembership(targets, t => IsCivil(playerCountry, t), t);
    Seqs.FilterMembership(targets, t => !IsCivil(playerCountry, t), t);
    Seqs.FilterIsSubseq(targets, t => IsCivil(playerCountry, t));
    Seqs.FilterIsSubseq(targets, t => !IsCivil(playerCountry, t));
  }

  /** Whether a country-name group holds a target of the player's own country. */
  predicate HasCivil(group: seq<PvPBattleParticipant>, playerCountry: Option<string>) {
    exists t :: t in group && IsCivil(playerCountry, t)
  }

  /**
   * The groups the foreign section draws: those of `names` in which no target is of the
   * player's own country (the section is drawn from all the targets' groups).
   */
  function ShownGroups(targets: seq<PvPBattleParticipant>, names: seq<string>, playerCountry: Option<string>)
    : seq<PvPBattleParticipant>
  {
    if names == [] then []
    else
      var g := Seqs.Bucket(targets, CountryNameKey, names[0]);
      (if HasCivil(g, playerCountry) then [] else g) + ShownGroups(targets, names[1..], playerCountry)
  }

  /** The targets the foreign section shows, as the panel draws it. */
  function ForeignSectionAsWritten(targets: seq<PvPBattleParticipant>, playerCountry: Option<string>)
    : seq<PvPBattleParticipant>
  {
    if ForeignTargets(targets, playerCountry) == [] then []
    else ShownGroups(targets, Seqs.KeysInOrder(targets, CountryNameKey), playerCountry)
  }

  /**
   * A foreign target that shares its listing name with a target of the player's own
   * country is shown in neither section.  For instance two targets with no country name
   * are both listed as "Unknown", and the foreign one of them disappears.
   */
  lemma ForeignTargetHidden(own: PvPBattleParticipant, other: PvPBattleParticipant, country: string)
    requires own.countryId == country && other.countryId != country
    requires CountryNameKey(own) == CountryNameKey(other)
    ensures other in ForeignTargets([own, other], Some(country))
    ensures other !in CivilWarTargets([own, other], Some(country))
    ensures other !in ForeignSectionAsWritten([own, other], Some(country))
  {
    var targets := [own, other];
    var c := Some(country);
    var k := CountryNameKey(own);
    assert targets[..1] == [own] && [own][..0] == [];
    assert ForeignTargets([own], c) == [];
    assert ForeignTargets(targets, c) == [other];
    assert CivilWarTargets([own], c) == [own];
    assert CivilWarTargets(targets, c) == [own];
    Seqs.SingleKey(targets, CountryNameKey, k);
    var g := Seqs.Bucket(targets, CountryNameKey, k);
    assert HasCivil(g, c) by {
      assert own in g && IsCivil(c, own);
    }
    assert ShownGroups(targets, [k], c) == [];
  }

  /** The instance above: two targets with an empty country name, from the USA and from Russia. */
  lemma ForeignTargetHiddenExample()
    ensures var own := PvPBattleParticipant("1", "b", "p1", "ann", "usa", "", 1, 100, 100, false);
      var other := PvPBattleParticipant("2", "b", "p2", "bob", "russia", "", 2, 100, 100, false);
      other in ForeignTargets([own, other], Some("usa")) && other !in ForeignSectionAsWritten([own, other], Some("usa"))
  {
    var own := PvPBattleParticipant("1", "b", "p1", "ann", "usa", "", 1, 100, 100, false);
    var other := PvPBattleParticipant("2", "b", "p2", "bob", "russia", "", 2, 100, 100, false);
    ForeignTargetHidden(own, other, "usa");
  }

  /** The foreign section grouped by country name from the foreign targets alone. */
  function ForeignSection(targets: seq<PvPBattleParticipant>, playerCountry: Option<string>)
    : seq<PvPBattleParticipant>
  {
    var foreign := ForeignTargets(targets, playerCountry);
    Seqs.Concat(foreign, CountryNameKey, Seqs.KeysInOrder(foreign, CountryNameKey))
  }

  /**
   * Grouped from the foreign targets alone, the foreign section shows every foreign
   * target exactly once, and with the civil-war section covers every target once.
   */
  lemma ForeignSectionShowsEveryForeignTarget(targets: seq<PvPBattleParticipant>, playerCountry: Option<string>)
    ensures multiset(ForeignSection(targets, playerCountry)) == multiset(ForeignTargets(targets, playerCountry))
    ensures multiset(CivilWarTargets(targets, playerCountry)) + multiset(ForeignSection(targets, playerCountry))
      == multiset(targets)
  {
    Seqs.BucketsPartition(ForeignTargets(targets, playerCountry), CountryNameKey);
    Seqs.FilterPartition(targets, t => IsCivil(playerCountry, t), t => !IsCivil(playerCountry, t));
  }

  // ------------------------------------------------------------------ weapons

  /**
   * The panel's weapon buttons use the arena's weapon table (the panel repeats the same
   * three entries).  A button is disabled exactly when the arena would not enable it.
   */
  predicate WeaponDisabled(availableWeapons: seq<string>, equipment: Option<PlayerEquipment>, w: BattleArena.Weapon) {
    !(w.id in availableWeapons) || !BattleArena.CanUseWeapon(equipment, w)
  }

  lemma WeaponDisabledMatchesArena(availableWeapons: seq<string>, e: PlayerEquipment, w: BattleArena.Weapon)
    ensures WeaponDisabled(availableWeapons, Some(e), w) <==> w.id !in availableWeapons || e.rockets < w.cost
    ensures WeaponDisabled(availableWeapons, Some(e), w) <==> !BattleArena.WeaponEnabled(availableWeapons, Some(e), w)
    ensures WeaponDisabled(availableWeapons, None, w)
  {
  }

  datatype DamagePreview = DamagePreview(base: int, actual: int, bonus: int)

  /** The preview of a weapon when no player is known: its base damage, no bonus. */
  function PlainPreview(w: BattleArena.Weapon): DamagePreview {
    DamagePreview(w.damage, w.damage, 0)
  }

  /** `weaponDamageCalculations`: one preview per weapon id, built weapon by weapon. */
  function DamageTable(ws: seq<BattleArena.Weapon>, preview: BattleArena.Weapon -> DamagePreview)
    : (table: map<string, DamagePreview>)
    ensures forall w :: w in ws ==> w.id in table
    ensures forall id :: id in table ==> exists w :: w in ws && w.id == id
  {
    if ws == [] then map[]
    else
      var w := ws[|ws| - 1];
      assert forall v :: v in ws[..|ws| - 1] ==> v in ws;
      DamageTable(ws[..|ws| - 1], preview)[w.id := preview(w)]
  }

  /**
   * `getActualDamage`.  `rankPreview` stands for the preview with the player's rank
   * bonus, which is floating-point arithmetic on the rank table and not modelled.
   */
  function ActualDamage(hasPlayer: bool, rankPreview: BattleArena.Weapon -> DamagePreview, weaponType: string)
    : DamagePreview
  {
    var table := DamageTable(BattleArena.Weapons, if hasPlayer then rankPreview else PlainPreview);
    if weaponType in table then table[weaponType] else DamagePreview(0, 0, 0)
  }

  /** With distinct ids, each weapon's entry in the table is its own preview. */
  lemma {:induction false} DamageTableLookup(ws: seq<BattleArena.Weapon>, preview: BattleArena.Weapon -> DamagePreview,
                                             i: nat)
    requires i < |ws|
    requires forall j, k :: 0 <= j < k < |ws| ==> ws[j].id != ws[k].id
    ensures ws[i].id in DamageTable(ws, preview)
    ensures DamageTable(ws, preview)[ws[i].id] == preview(ws[i])
  {
    if i < |ws| - 1 {
      DamageTableLookup(ws[..|ws| - 1], preview, i);
    }
  }

  /**
   * Without a player each weapon of the table previews its base damage with no bonus;
   * a weapon id outside the table previews zeros with or without a player.
   */
  lemma DamagePreviewFallbacks(rankPreview: BattleArena.Weapon -> DamagePreview, hasPlayer: bool, weaponType: string)
    ensures forall i :: 0 <= i < |BattleArena.Weapons| ==>
      var w := BattleArena.Weapons[i];
      ActualDamage(false, rankPreview, w.id) == DamagePreview(w.damage, w.damage, 0)
    ensures (forall w :: w in BattleArena.Weapons ==> w.id != weaponType) ==>
      ActualDamage(hasPlayer, rankPreview, weaponType) == DamagePreview(0, 0, 0)
  {
    var ws := BattleArena.Weapons;
    assert forall j, k :: 0 <= j < k < |ws| ==> ws[j].id != ws[k].id;
    forall i | 0 <= i < |ws| ensures ActualDamage(false, rankPreview, ws[i].id) == PlainPreview(ws[i]) {
      DamageTableLookup(ws, PlainPreview, i);
    }
  }

  /** The panel's own selection state. */
  class TurnPanelState {
    var selectedWeapon: string

    constructor ()
      ensures selectedWeapon == ""
    {
      selectedWeapon := "";
    }

    /**
     * `handleWeaponSelect`: with a target selected, records the weapon, leaves target mode
     * through the optional `onTargetModeChange` callback (when the parent passed one) and
     * attacks that target with it.  Returns the target mode handed to that callback, if it
     * was called, and the (target, weapon) handed to `onAttack`.
     */
    method HandleWeaponSelect(selectedTarget: string, weaponId: string, hasTargetModeCallback: bool)
      returns (targetModeChange: Option<bool>, attack: Option<(string, string)>)
      modifies this
      ensures attack.None? <==> selectedTarget == ""
      ensures attack.Some? ==> attack.value == (selectedTarget, weaponId) && selectedWeapon == weaponId
      ensures targetModeChange.Some? <==> attack.Some? && hasTargetModeCallback
      ensures targetModeChange.Some? ==> targetModeChange.value == false
      ensures attack.None? ==> selectedWeapon == old(selectedWeapon)
    {
      if selectedTarget == "" {
        return None, None;
      }
      selectedWeapon := weaponId;
      targetModeChange := if hasTargetModeCallback then Some(false) else None;
      attack := Some((selectedTarget, weaponId));
    }
  }
}
