/**
 * The battle arena screen: early start, the countdown text, target and weapon choice,
 * and the handlers that submit an attack, a defence deployment or a pass.
 */
module BattleArena {
  import opened Wrappers
  import opened GameTypes
  import Text
  import Seqs

  /** `canStartEarly`: the creator may start a waiting battle once two players are in. */
  predicate CanStartEarly(battle: Option<PvPBattle>, player: Option<GamePlayer>) {
    && battle.Some? && player.Some?
    && battle.value.creatorId == player.value.id
    && battle.value.battleStatus == WaitingForPlayers
    && battle.value.currentParticipants >= 2
  }

  /** `handleStartEarly`: the (battle id, creator id) passed to `onStartBattle`, if it is called. */
  function StartEarlyRequest(battleId: string, battle: Option<PvPBattle>, player: Option<GamePlayer>,
                             hasStartCallback: bool): (r: Option<(string, string)>)
    ensures r.Some? <==> CanStartEarly(battle, player) && hasStartCallback
    ensures r.Some? ==> r.value == (battleId, battle.value.creatorId)
  {
    if CanStartEarly(battle, player) && hasStartCallback then Some((battleId, player.value.id)) else None
  }

  // ------------------------------------------------------------------ countdown

  /** `formatTime`: whole minutes, a colon, and the seconds as two digits; "0:00" when time is up. */
  function FormatTime(seconds: int): string {
    if seconds <= 0 then "0:00"
    else Clock(seconds / 60, seconds % 60)
  }

  /** Two decimal digits, possibly with a leading zero, read back as their value. */
  lemma ParseTwoDigits(n: nat)
    requires n < 60
    ensures var p := Text.PadStart(Text.NatToString(n), 2, '0');
      |p| == 2 && Text.AllDigits(p) && Text.ParseNat(p) == n
  {
    var d := Text.NatToString(n);
    var p := Text.PadStart(d, 2, '0');
    Text.ParseNatToString(n);
    if n < 10 {
      assert p[1..] == d;
      assert p[..1] == "0";
      assert Text.ParseNat(p[..1]) == 0 by {
        assert p[..1][..0] == [];
      }
    } else {
      assert p == d;
    }
  }

  /**
   * The countdown reads back as the time it shows: the part before the colon is the
   * minutes, the two digits after it are the seconds, and together they give the input.
   */
  lemma {:induction false} FormatTimeReadsBack(seconds: int)
    requires seconds > 0
    ensures var r := FormatTime(seconds);
      && |r| >= 4 && r[|r| - 3] == ':'
      && Text.AllDigits(r[..|r| - 3]) && Text.AllDigits(r[|r| - 2..])
      && Text.ParseNat(r[|r| - 2..]) < 60
      && 60 * Text.ParseNat(r[..|r| - 3]) + Text.ParseNat(r[|r| - 2..]) == seconds
  {
    var mins, secs := seconds / 60, seconds % 60;
    assert FormatTime(seconds) == Clock(mins, secs);
    ClockReadsBack(mins, secs);
  }

  /** Minutes, a colon and two-digit seconds. */
  function Clock(mins: nat, secs: nat): string {
    Text.NatToString(mins) + ":" + Text.PadStart(Text.NatToString(secs), 2, '0')
  }

  lemma ClockReadsBack(mins: nat, secs: nat)
    requires secs < 60
    ensures var r := Clock(mins, secs);
      && |r| >= 4 && r[|r| - 3] == ':'
      && Text.AllDigits(r[..|r| - 3]) && Text.AllDigits(r[|r| - 2..])
      && Text.ParseNat(r[..|r| - 3]) == mins
      && Text.ParseNat(r[|r| - 2..]) == secs
  {
    var m := Text.NatToString(mins);
    var p := Text.PadStart(Text.NatToString(secs), 2, '0');
    var r := Clock(mins, secs);
    SplitAtColon(m, p);
    ParseTwoDigits(secs);
    Text.ParseNatToString(mins);
    assert r[..|r| - 3] == m;
    assert Text.ParseNat(r[..|r| - 3]) == Text.ParseNat(m);
  }

  /** The parts of `m + ":" + p` around the colon, for a two-character `p`. */
  lemma SplitAtColon(m: string, p: string)
    requires |p| == 2
    ensures var r := m + ":" + p;
      |r| == |m| + 3 && r[|r| - 3] == ':' && r[..|r| - 3] == m && r[|r| - 2..] == p
  {
    var r := m + ":" + p;
    assert r[..|r| - 3] == m;
    assert r[|r| - 2..] == p;
  }

  /** The countdown shows "0:00" exactly when no time is left. */
  lemma FormatTimeZero(seconds: int)
    ensures FormatTime(seconds) == "0:00" <==> seconds <= 0
  {
    if seconds > 0 {
      FormatTimeReadsBack(seconds);
    }
  }

  // ------------------------------------------------------------------ targets and weapons

  /** `availableTargets`: the other participants still in the fight. */
  function AvailableTargets(participants: seq<PvPBattleParticipant>, playerId: Option<string>)
    : seq<PvPBattleParticipant>
  {
    Seqs.Filter(participants, (p: PvPBattleParticipant) => Targetable(p, playerId))
  }

  /** A participant is a target exactly when it is neither the player nor eliminated; order is kept. */
  lemma AvailableTargetsExactly(participants: seq<PvPBattleParticipant>, playerId: Option<string>,
                                p: PvPBattleParticipant)
    ensures p in AvailableTargets(participants, playerId) <==>
      p in participants && !p.isEliminated && !(playerId.Some? && p.playerId == playerId.value)
    ensures Seqs.IsSubseq(AvailableTargets(participants, playerId), participants)
  {
    Seqs.FilterMembership(participants, (p: PvPBattleParticipant) => Targetable(p, playerId), p);
    Seqs.FilterIsSubseq(participants, (p: PvPBattleParticipant) => Targetable(p, playerId));
  }

  datatype Weapon = Weapon(id: string, damage: nat, cost: nat)

  /** The arena's weapon table. */
  const Weapons: seq<Weapon> := [
    Weapon("Missile Strike", 25, 1),
    Weapon("Artillery Barrage", 35, 2),
    Weapon("Nuclear Strike", 50, 3)
  ]

  /** `canUseWeapon`: the player's equipment is loaded and holds enough rockets. */
  predicate CanUseWeapon(equipment: Option<PlayerEquipment>, w: Weapon) {
    equipment.Some? && equipment.value.rockets >= w.cost
  }

  /** A weapon button is enabled when the weapon is available to the player and affordable. */
  predicate WeaponEnabled(availableWeapons: seq<string>, equipment: Option<PlayerEquipment>, w: Weapon) {
    w.id in availableWeapons && CanUseWeapon(equipment, w)
  }

  /** The "Limited Arsenal" warning. */
  predicate LimitedArsenal(equipment: Option<PlayerEquipment>) {
    equipment.Some? && equipment.value.rockets < 3
  }

  /**
   * The warning shows exactly when some weapon of the table is unaffordable, and a
   * weapon that is affordable stays so with more rockets.
   */
  lemma LimitedArsenalMeansUnaffordable(e: PlayerEquipment)
    ensures LimitedArsenal(Some(e)) <==> exists w :: w in Weapons && !CanUseWeapon(Some(e), w)
    ensures forall w, more: PlayerEquipment ::
      (w in Weapons && CanUseWeapon(Some(e), w) && more.rockets >= e.rockets) ==> CanUseWeapon(Some(more), w)
  {
    if LimitedArsenal(Some(e)) {
      assert Weapons[2] in Weapons && !CanUseWeapon(Some(e), Weapons[2]);
    }
  }

  // ------------------------------------------------------------------ actions

  /** What the arena submits through `executeAction`. */
  datatype ActionRequest = Attack(targetPlayerId: string, weaponUsed: string) | DeployDefense | Pass

  function ActionType(a: ActionRequest): string {
    match a
    case Attack(_, _) => "attack"
    case DeployDefense => "deploy_defense"
    case Pass => "pass"
  }

  /** The arena's own interaction state. */
  class ArenaState {
    var selectedTarget: string
    var selectedWeapon: string
    var targetMode: bool
    var mobileMenuOpen: bool
    var mobileActionsOpen: bool

    constructor ()
      ensures selectedTarget == "" && selectedWeapon == "" && !targetMode
      ensures !mobileMenuOpen && !mobileActionsOpen
    {
      selectedTarget := "";
      selectedWeapon := "";
      targetMode := false;
      mobileMenuOpen := false;
      mobileActionsOpen := false;
    }

    /** Target mode switches on by itself when the battle is running and it is the player's turn. */
    method AutoTargetMode(status: BattleStatus, isMyTurn: bool)
      modifies this
      ensures targetMode == (old(targetMode) || (status == InProgress && isMyTurn))
      ensures selectedTarget == old(selectedTarget) && selectedWeapon == old(selectedWeapon)
      ensures mobileMenuOpen == old(mobileMenuOpen) && mobileActionsOpen == old(mobileActionsOpen)
    {
      if status == InProgress && isMyTurn && !targetMode {
        targetMode := true;
      }
    }

    /**
     * `handleAttack`.  `accepted` is whether `executeAction` resolves; it is only
     * consulted when the request is sent.
     */
    method HandleAttack(hasPlayer: bool, targetPlayerId: string, weaponType: string, accepted: bool)
      returns (sent: Option<ActionRequest>)
      modifies this
      ensures sent.Some? <==> hasPlayer && targetPlayerId != "" && weaponType != ""
      ensures sent.Some? ==> sent.value == Attack(targetPlayerId, weaponType)
      ensures if sent.Some? && accepted then
          selectedTarget == "" && selectedWeapon == "" && !targetMode && !mobileMenuOpen && !mobileActionsOpen
        else
          unchanged(this)
    {
      if !hasPlayer || targetPlayerId == "" || weaponType == "" {
        return None;
      }
      sent := Some(Attack(targetPlayerId, weaponType));
      if accepted {
        selectedTarget := "";
        targetMode := false;
        mobileMenuOpen := false;
        mobileActionsOpen := false;
        selectedWeapon := "";
      }
    }

    /**
     * `handleDefend`.  `canDeploy` stands for `canDeployDefenseSystem`; a player whose
     * equipment has not loaded yet is not checked.
     */
    method HandleDefend(hasPlayer: bool, equipment: Option<PlayerEquipment>,
                        canDeploy: PlayerEquipment -> bool, accepted: bool)
      returns (sent: Option<ActionRequest>)
      modifies this
      ensures sent.Some? <==> hasPlayer && (equipment.None? || canDeploy(equipment.value))
      ensures sent.Some? ==> sent.value == DeployDefense
      ensures selectedTarget == old(selectedTarget) && selectedWeapon == old(selectedWeapon)
      ensures targetMode == old(targetMode)
      ensures if sent.Some? && accepted then !mobileMenuOpen && !mobileActionsOpen
        else mobileMenuOpen == old(mobileMenuOpen) && mobileActionsOpen == old(mobileActionsOpen)
    {
      if !hasPlayer {
        return None;
      }
      if equipment.Some? && !canDeploy(equipment.value) {
        return None;
      }
      sent := Some(DeployDefense);
      if accepted {
        mobileMenuOpen := false;
        mobileActionsOpen := false;
      }
    }

    /** `handlePass`. */
    method HandlePass(hasPlayer: bool, accepted: bool) returns (sent: Option<ActionRequest>)
      modifies this
      ensures sent.Some? <==> hasPlayer
      ensures sent.Some? ==> sent.value == Pass
      ensures selectedTarget == old(selectedTarget) && selectedWeapon == old(selectedWeapon)
      ensures targetMode == old(targetMode)
      ensures if sent.Some? && accepted then !mobileMenuOpen && !mobileActionsOpen
        else mobileMenuOpen == old(mobileMenuOpen) && mobileActionsOpen == old(mobileActionsOpen)
    {
      if !hasPlayer {
        return None;
      }
      sent := Some(Pass);
      if accepted {
        mobileMenuOpen := false;
        mobileActionsOpen := false;
      }
    }

    /** The "Cancel Attack" button. */
    method CancelAttack()
      modifies this
      ensures selectedTarget == "" && selectedWeapon == "" && !targetMode
      ensures mobileMenuOpen == old(mobileMenuOpen) && mobileActionsOpen == old(mobileActionsOpen)
    {
      selectedTarget := "";
      selectedWeapon := "";
      targetMode := false;
    }
  }
}
