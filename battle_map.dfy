/**
 * The battle map panel: which participants appear as countries, how a click on the
 * map becomes a target, and which attack the map animates.
 */
module BattleMap {
  import opened Wrappers
  import opened GameTypes
  import Text
  import Seqs
  import BattleArena
  import LeafletWorldMap

  // ------------------------------------------------------------------ countries

  /** One entry of `participantCountries`. */
  datatype ParticipantCountry = ParticipantCountry(
    country: Country,
    participant: PvPBattleParticipant,
    isCurrentPlayer: bool,
    isCurrentTurn: bool,
    isSelected: bool,
    canTarget: bool,
    isEliminated: bool)

  /** The entry drawn for a participant whose country is `c`. */
  function Entry(p: PvPBattleParticipant, c: Country, currentPlayerId: Option<string>,
                 currentTurnPlayerId: Option<string>, selectedTarget: string): ParticipantCountry {
    ParticipantCountry(c, p, IsPlayer(p, currentPlayerId),
      currentTurnPlayerId.Some? && p.playerId == currentTurnPlayerId.value,
      p.playerId == selectedTarget, Targetable(p, currentPlayerId), p.isEliminated)
  }

  /** `participantCountries`: each participant whose country is known, with its flags. */
  function ParticipantCountries(participants: seq<PvPBattleParticipant>, countryById: string -> Option<Country>,
                                currentPlayerId: Option<string>, currentTurnPlayerId: Option<string>,
                                selectedTarget: string): (r: seq<ParticipantCountry>)
    ensures |r| <= |participants|
    ensures forall i :: 0 <= i < |r| ==>
      && countryById(r[i].participant.countryId) == Some(r[i].country)
      && r[i].canTarget == Targetable(r[i].participant, currentPlayerId)
  {
    if participants == [] then []
    else
      var init := ParticipantCountries(participants[..|participants| - 1], countryById, currentPlayerId,
                                       currentTurnPlayerId, selectedTarget);
      var p := participants[|participants| - 1];
      match countryById(p.countryId)
      case None => init
      case Some(c) => init + [Entry(p, c, currentPlayerId, currentTurnPlayerId, selectedTarget)]
  }

  predicate HasKnownCountry(countryById: string -> Option<Country>, p: PvPBattleParticipant) {
    countryById(p.countryId).Some?
  }

  /** The entries are exactly the participants with a known country, in their order. */
  lemma {:induction false} ParticipantCountriesKeepKnown(participants: seq<PvPBattleParticipant>,
      countryById: string -> Option<Country>, currentPlayerId: Option<string>,
      currentTurnPlayerId: Option<string>, selectedTarget: string)
    ensures var r := ParticipantCountries(participants, countryById, currentPlayerId, currentTurnPlayerId,
                                          selectedTarget);
      var known := Seqs.Filter(participants, p => HasKnownCountry(countryById, p));
      |r| == |known| && forall i :: 0 <= i < |r| ==> r[i].participant == known[i]
  {
    if participants != [] {
      ParticipantCountriesKeepKnown(participants[..|participants| - 1], countryById, currentPlayerId,
                                    currentTurnPlayerId, selectedTarget);
    }
  }

  // ------------------------------------------------------------------ target selection

  /**
   * The participant a map click names: the first with that player id, or failing that the
   * first with that country id (both lookups are `find`).
   */
  function ClickedParticipant(participants: seq<PvPBattleParticipant>, clickedId: string)
    : (r: Option<PvPBattleParticipant>)
    ensures r.Some? ==> r.value in participants
    ensures r.Some? ==>
      exists k :: 0 <= k < |participants| && participants[k] == r.value &&
        forall j :: 0 <= j < k ==>
          if r.value.playerId == clickedId then participants[j].playerId != clickedId
          else participants[j].countryId != clickedId
    ensures (exists i :: 0 <= i < |participants| && participants[i].playerId == clickedId) ==>
      r.Some? && r.value.playerId == clickedId
    ensures r.Some? && r.value.playerId != clickedId ==> r.value.countryId == clickedId
    ensures r.None? <==> forall i :: 0 <= i < |participants| ==>
      participants[i].playerId != clickedId && participants[i].countryId != clickedId
  {
    var byPlayer := Seqs.Find(participants, (p: PvPBattleParticipant) => p.playerId == clickedId);
    if byPlayer.Some? then byPlayer
    else Seqs.Find(participants, (p: PvPBattleParticipant) => p.countryId == clickedId)
  }

  /** `handleCountrySelect`: the player id handed to `onTargetSelect`, if any. */
  function CountrySelect(targetMode: bool, isMyTurn: bool, participants: seq<PvPBattleParticipant>,
                         currentPlayerId: Option<string>, clickedId: string): (r: Option<string>)
    ensures r.Some? ==> targetMode && isMyTurn
    ensures r.Some? <==> (targetMode && isMyTurn && ClickedParticipant(participants, clickedId).Some?
                          && Targetable(ClickedParticipant(participants, clickedId).value, currentPlayerId))
    ensures r.Some? ==> r.value == ClickedParticipant(participants, clickedId).value.playerId
  {
    if !targetMode || !isMyTurn then None
    else match ClickedParticipant(participants, clickedId)
      case None => None
      case Some(p) => if p.isEliminated || IsPlayer(p, currentPlayerId) then None else Some(p.playerId)
  }

  /**
   * A click on a country resolves to its first participant: when that one is eliminated,
   * nothing is selected, even if a later participant of the same country could be targeted.
   */
  lemma EliminatedFirstOfCountryBlocksClick(a: PvPBattleParticipant, b: PvPBattleParticipant,
                                            currentPlayerId: Option<string>, clickedId: string)
    requires a.countryId == clickedId && b.countryId == clickedId
    requires a.playerId != clickedId && b.playerId != clickedId
    requires a.isEliminated
    ensures ClickedParticipant([a, b], clickedId) == Some(a)
    ensures CountrySelect(true, true, [a, b], currentPlayerId, clickedId).None?
  {
    var r := ClickedParticipant([a, b], clickedId);
    var k :| 0 <= k < 2 && [a, b][k] == r.value &&
      forall j :: 0 <= j < k ==> [a, b][j].countryId != clickedId;
    assert k == 0;
  }

  /** A click only ever selects one of the arena's available targets. */
  lemma CountrySelectPicksAvailableTarget(targetMode: bool, isMyTurn: bool, participants: seq<PvPBattleParticipant>,
                                          currentPlayerId: Option<string>, clickedId: string)
    ensures var r := CountrySelect(targetMode, isMyTurn, participants, currentPlayerId, clickedId);
      r.Some? ==> exists t :: t in BattleArena.AvailableTargets(participants, currentPlayerId) && t.playerId == r.value
  {
    var r := CountrySelect(targetMode, isMyTurn, participants, currentPlayerId, clickedId);
    if r.Some? {
      var t := ClickedParticipant(participants, clickedId).value;
      BattleArena.AvailableTargetsExactly(participants, currentPlayerId, t);
    }
  }

  /** The map's mode: selecting targets while the player is choosing one on their turn. */
  function Mode(targetMode: bool, isMyTurn: bool): LeafletWorldMap.MapMode {
    if targetMode && isMyTurn then LeafletWorldMap.Select else LeafletWorldMap.View
  }

  /**
   * A marker click that the world map forwards always passes this panel's own guard, and
   * selects the clicked participant when it can be targeted.
   */
  lemma ForwardedClickSelects(targetMode: bool, isMyTurn: bool, participants: seq<PvPBattleParticipant>,
                              currentPlayerId: Option<string>, p: PvPBattleParticipant)
    requires p in participants
    requires LeafletWorldMap.PlayerClick(Mode(targetMode, isMyTurn), Some(targetMode), p).Some?
    ensures var id := LeafletWorldMap.PlayerClick(Mode(targetMode, isMyTurn), Some(targetMode), p).value;
      var r := CountrySelect(targetMode, isMyTurn, participants, currentPlayerId, id);
      && (r.Some? ==> r.value == p.playerId)
      && (r.Some? <==> Targetable(ClickedParticipant(participants, id).value, currentPlayerId))
  {
    var i :| 0 <= i < |participants| && participants[i] == p;
  }

  /**
   * The `selectedCountry` passed to the world map: with a target selected, the country
   * of the first participant with that player id (`find`), and nothing otherwise.
   */
  function SelectedCountry(participants: seq<PvPBattleParticipant>, selectedTarget: string): (r: Option<string>)
    ensures r.Some? <==>
      selectedTarget != "" && exists i :: 0 <= i < |participants| && participants[i].playerId == selectedTarget
    ensures r.Some? ==>
      exists k :: 0 <= k < |participants| && participants[k].playerId == selectedTarget
        && participants[k].countryId == r.value
        && forall j :: 0 <= j < k ==> participants[j].playerId != selectedTarget
  {
    if selectedTarget == "" then None
    else match Seqs.Find(participants, (p: PvPBattleParticipant) => p.playerId == selectedTarget)
      case None => None
      case Some(p) => Some(p.countryId)
  }

  /**
   * A selection made on the map is the one the map then highlights: with distinct player
   * ids, the selected target's country is the country of the participant that was clicked
   * (an empty player id is falsy, so it highlights nothing).
   */
  lemma SelectionIsHighlighted(targetMode: bool, isMyTurn: bool, participants: seq<PvPBattleParticipant>,
                               currentPlayerId: Option<string>, clickedId: string)
    requires forall i, j :: 0 <= i < j < |participants| ==> participants[i].playerId != participants[j].playerId
    ensures var r := CountrySelect(targetMode, isMyTurn, participants, currentPlayerId, clickedId);
      r.Some? ==>
        && (SelectedCountry(participants, r.value).Some? <==> r.value != "")
        && (r.value != "" ==>
              SelectedCountry(participants, r.value) == Some(ClickedParticipant(participants, clickedId).value.countryId))
  {
    var r := CountrySelect(targetMode, isMyTurn, participants, currentPlayerId, clickedId);
    if r.Some? {
      var p := ClickedParticipant(participants, clickedId).value;
      var i :| 0 <= i < |participants| && participants[i] == p;
      if r.value != "" {
        var c := SelectedCountry(participants, r.value);
        assert c.Some?;
        var k :| 0 <= k < |participants| && participants[k].playerId == r.value
          && participants[k].countryId == c.value;
        assert k == i;
      }
    }
  }

  // ------------------------------------------------------------------ latest attack

  /** A turn the map can animate: an attack that did damage to a named target. */
  predicate IsDamagingAttack(t: PvPBattleTurn) {
    t.actionType == "attack" && t.damageDealt > 0.0 && Truthy(t.targetPlayerId)
  }

  /** Sorting by this key puts later `turn_end_time`s first. */
  function LatenessKey(t: PvPBattleTurn): int {
    -t.turnEndTime
  }

  /** The latest damaging attack: filtered, sorted newest first, and the first taken. */
  function LatestAttack(turns: seq<PvPBattleTurn>): Option<PvPBattleTurn> {
    var attacks := Seqs.Filter(turns, IsDamagingAttack);
    if attacks == [] then None else Some(Seqs.SortBy(attacks, LatenessKey)[0])
  }

  /** There is a latest attack exactly when the log holds a damaging attack. */
  lemma LatestAttackExists(turns: seq<PvPBattleTurn>)
    ensures LatestAttack(turns).Some? <==> exists t :: t in turns && IsDamagingAttack(t)
  {
    var attacks := Seqs.Filter(turns, IsDamagingAttack);
    if exists t :: t in turns && IsDamagingAttack(t) {
      var t :| t in turns && IsDamagingAttack(t);
      Seqs.FilterMembership(turns, IsDamagingAttack, t);
    }
    if attacks != [] {
      Seqs.FilterMembership(turns, IsDamagingAttack, attacks[0]);
    }
  }

  /**
   * The latest attack is a damaging attack from the log that ended no earlier than any
   * other; among attacks that ended at the same time it is the first in the log.
   */
  lemma LatestAttackIsLatest(turns: seq<PvPBattleTurn>)
    requires LatestAttack(turns).Some?
    ensures var r := LatestAttack(turns).value;
      r in turns && IsDamagingAttack(r)
    ensures var r := LatestAttack(turns).value;
      forall t :: t in turns && IsDamagingAttack(t) ==> t.turnEndTime <= r.turnEndTime
    ensures var attacks := Seqs.Filter(turns, IsDamagingAttack); var r := LatestAttack(turns).value;
      exists k :: (0 <= k < |attacks| && attacks[k] == r
                   && forall j :: 0 <= j < k ==> attacks[j].turnEndTime < r.turnEndTime)
  {
    Seqs.SortedFilterHead(turns, IsDamagingAttack, LatenessKey);
  }

  /** The animated attack and the key that restarts its animation. */
  class AttackAnimation {
    var latestAttackTurn: Option<PvPBattleTurn>
    var animationKey: string

    constructor ()
      ensures latestAttackTurn.None? && animationKey == ""
    {
      latestAttackTurn := None;
      animationKey := "";
    }

    /**
     * The effect run when the turns change; `now` is the clock reading `Date.now()`.
     * A different attack replaces the stored one with a fresh key; the same attack
     * (by id) leaves both untouched; no attack clears both.
     */
    method OnTurnsChanged(turns: seq<PvPBattleTurn>, now: int)
      modifies this
      ensures LatestAttack(turns).None? ==> latestAttackTurn.None? && animationKey == ""
      ensures (LatestAttack(turns).Some? && old(latestAttackTurn).Some?
               && old(latestAttackTurn).value.id == LatestAttack(turns).value.id) ==> unchanged(this)
      ensures var l := LatestAttack(turns);
        l.Some? && (old(latestAttackTurn).None? || old(latestAttackTurn).value.id != l.value.id) ==>
          latestAttackTurn == l
          && animationKey == l.value.id + "-" + Text.IntToString(l.value.turnNumber) + "-" + Text.IntToString(now)
      ensures latestAttackTurn.Some? <==> LatestAttack(turns).Some?
      ensures latestAttackTurn.Some? ==> latestAttackTurn.value.id == LatestAttack(turns).value.id
    {
      var latest := LatestAttack(turns);
      if latest.Some? {
        var key := latest.value.id + "-" + Text.IntToString(latest.value.turnNumber) + "-" + Text.IntToString(now);
        if latestAttackTurn.None? || latestAttackTurn.value.id != latest.value.id {
          latestAttackTurn := latest;
          animationKey := key;
        }
      } else {
        latestAttackTurn := None;
        animationKey := "";
      }
    }
  }
}
