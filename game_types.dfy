/**
 * The records the client reads from the game backend (`src/types/game.ts`), with the
 * fields the modelled rules look at.  Timestamps are the milliseconds that
 * `new Date(text).getTime()` yields for them.
 */
module GameTypes {
  import opened Wrappers

  datatype Country = Country(
    id: string,
    name: string,
    code: string,
    militaryStrength: int,
    nuclearCapability: bool)

  datatype GamePlayer = GamePlayer(
    id: string,
    walletAddress: string,
    username: string,
    selectedCountryId: string,
    reputation: int,
    rankLevel: int)

  datatype PlayerEquipment = PlayerEquipment(
    id: string,
    playerId: string,
    rockets: int,
    defenseSystems: int,
    defenseCharges: int)

  /** The lobby status of a battle as the backend stores it. */
  datatype BattleStatus = WaitingForPlayers | Starting | InProgress | Completed | Cancelled

  /** The string the backend uses for each status. */
  function StatusName(s: BattleStatus): string {
    match s
    case WaitingForPlayers => "waiting_for_players"
    case Starting => "starting"
    case InProgress => "in_progress"
    case Completed => "completed"
    case Cancelled => "cancelled"
  }

  datatype PvPBattleParticipant = PvPBattleParticipant(
    id: string,
    battleId: string,
    playerId: string,
    username: string,
    countryId: string,
    countryName: string,
    joinOrder: int,
    currentHealth: int,
    maxHealth: int,
    isEliminated: bool)

  datatype PvPBattle = PvPBattle(
    id: string,
    battleName: string,
    creatorId: string,
    creatorUsername: string,
    maxParticipants: int,
    currentParticipants: int,
    entryFee: int,
    totalPrizePool: int,
    battleStatus: BattleStatus,
    turnTimeLimit: int,
    currentTurnPlayerId: Option<string>,
    turnNumber: int,
    maxRank: Option<int>,
    participants: Option<seq<PvPBattleParticipant>>)

  /**
   * One entry of the append-only action log.  `actionType` is kept as the backend's
   * string: besides 'attack', 'defend', 'pass' and 'special_ability' the client also
   * submits 'deploy_defense'.  `damageDealt` is a decimal number.
   */
  datatype PvPBattleTurn = PvPBattleTurn(
    id: string,
    battleId: string,
    turnNumber: int,
    playerId: string,
    username: string,
    actionType: string,
    targetPlayerId: Option<string>,
    weaponUsed: string,
    damageDealt: real,
    turnStartTime: int,
    turnEndTime: int)

  /** JavaScript truthiness of an optional string: present and non-empty. */
  predicate Truthy(s: Option<string>) {
    s.Some? && s.value != ""
  }

  /** `p.player_id === player?.id`: an absent player matches no participant. */
  predicate IsPlayer(p: PvPBattleParticipant, playerId: Option<string>) {
    playerId.Some? && p.playerId == playerId.value
  }

  /** A participant the player may attack: still in the battle and not the player. */
  predicate Targetable(p: PvPBattleParticipant, playerId: Option<string>) {
    !p.isEliminated && !IsPlayer(p, playerId)
  }
}
