/**
 * The "Create Battle" form: the options a creator may pick, the prize split it shows,
 * and the request it submits.
 */
module CreateBattleModal {
  import opened Wrappers
  import opened GameTypes
  import Text
  import BattleEscrow

  /** The choices offered by the three selects. */
  const ParticipantOptions: set<int> := {2, 3, 4, 6, 8}
  const EntryFeeOptions: set<int> := {500, 1000, 2500, 5000, 10000, 25000}
  const TurnTimeLimitOptions: set<int> := {180, 300, 600, 900}

  /** The prize pool a full battle collects. */
  function TotalPrizePool(entryFee: int, maxParticipants: int): int {
    entryFee * maxParticipants
  }

  /** `Math.floor(totalPrizePool * 0.05)`, read in exact arithmetic. */
  function DevFee(pool: int): int {
    ((pool as real) * 0.05).Floor
  }

  function WinnerPayout(pool: int): int {
    pool - DevFee(pool)
  }

  /** On whole numbers the displayed 5% is the integer division `pool * 5 / 100`. */
  lemma DevFeeIsIntegerDivision(pool: int)
    ensures DevFee(pool) == pool * 5 / 100
  {
    var q := pool * 5 / 100;
    var r := pool * 5 % 100;
    assert pool * 5 == 100 * q + r && 0 <= r < 100;
    assert (pool as real) * 0.05 == q as real + (r as real) / 100.0;
    assert q as real <= (pool as real) * 0.05 < q as real + 1.0;
  }

  /** The shown split: the fee is at most the pool, and fee plus payout is the pool. */
  lemma PrizeSplit(pool: nat)
    ensures 0 <= DevFee(pool) <= pool
    ensures 0 <= WinnerPayout(pool) <= pool
    ensures DevFee(pool) + WinnerPayout(pool) == pool
  {
    DevFeeIsIntegerDivision(pool);
  }

  /**
   * Once a battle is full, the split the form showed is exactly the split the escrow
   * program pays out.
   */
  lemma SplitMatchesPayout(d: BattleEscrow.Deposit)
    requires BattleEscrow.Valid(d) && d.currentParticipants == d.maxParticipants
    ensures DevFee(TotalPrizePool(d.entryFee, d.maxParticipants)) == BattleEscrow.DevFee(d.totalDeposited)
    ensures WinnerPayout(TotalPrizePool(d.entryFee, d.maxParticipants)) == BattleEscrow.WinnerPayout(d.totalDeposited)
  {
    DevFeeIsIntegerDivision(TotalPrizePool(d.entryFee, d.maxParticipants));
  }

  /** Every choice the form offers fits the escrow's account fields and its payout arithmetic. */
  lemma OptionsFitTheEscrow(entryFee: int, maxParticipants: int)
    requires entryFee in EntryFeeOptions && maxParticipants in ParticipantOptions
    ensures 0 < maxParticipants < BattleEscrow.U8_LIMIT
    ensures 0 < TotalPrizePool(entryFee, maxParticipants) * 5 < BattleEscrow.U64_LIMIT
  {
  }

  datatype BattleSettings = BattleSettings(allowSpectators: bool, enableChat: bool, autoStart: bool)

  /** The `battleData` object handed to `onCreateBattle`. */
  datatype BattleRequest = BattleRequest(
    battleName: string,
    battleType: string,
    maxParticipants: int,
    entryFee: int,
    turnTimeLimit: int,
    maxRank: int,
    settings: BattleSettings)

  /** The form's state. */
  class CreateBattleForm {
    var battleName: string
    var maxParticipants: int
    var entryFee: int
    var turnTimeLimit: int
    var loading: bool

    /** The selects only ever hold one of their options. */
    predicate Valid()
      reads this
    {
      && maxParticipants in ParticipantOptions
      && entryFee in EntryFeeOptions
      && turnTimeLimit in TurnTimeLimitOptions
    }

    constructor ()
      ensures Valid()
      ensures battleName == "" && maxParticipants == 4 && entryFee == 1000 && turnTimeLimit == 300
      ensures !loading
    {
      battleName := "";
      maxParticipants := 4;
      entryFee := 1000;
      turnTimeLimit := 300;
      loading := false;
    }

    /** Typing in the name field; the field accepts at most 50 UTF-16 code units. */
    method SetBattleName(name: string)
      requires Text.Utf16Length(name) <= 50
      modifies this
      ensures battleName == name
      ensures maxParticipants == old(maxParticipants) && entryFee == old(entryFee)
      ensures turnTimeLimit == old(turnTimeLimit) && loading == old(loading)
    {
      battleName := name;
    }

    /** Picking an option in one of the three selects. */
    method Select(participants: int, fee: int, turnLimit: int)
      requires participants in ParticipantOptions && fee in EntryFeeOptions
      requires turnLimit in TurnTimeLimitOptions
      modifies this
      ensures Valid()
      ensures maxParticipants == participants && entryFee == fee && turnTimeLimit == turnLimit
      ensures battleName == old(battleName) && loading == old(loading)
    {
      maxParticipants := participants;
      entryFee := fee;
      turnTimeLimit := turnLimit;
    }

    /**
     * `handleSubmit`.  Returns the request passed to `onCreateBattle`, if any, and whether
     * `loading` was set while it ran.  The callback's success or failure does not matter:
     * an error is caught and `loading` is cleared either way.
     */
    method HandleSubmit(player: Option<GamePlayer>) returns (sent: Option<BattleRequest>, loadingDuringCall: bool)
      modifies this
      ensures sent.None? <==> player.None? || Text.Trim(old(battleName)) == []
      ensures sent.Some? ==> sent.value == BattleRequest(
        Text.Trim(battleName), "health_based", maxParticipants, entryFee, turnTimeLimit,
        player.value.rankLevel, BattleSettings(true, true, true))
      ensures sent.Some? ==> loadingDuringCall && !loading
      ensures sent.None? ==> loading == old(loading)
      ensures battleName == old(battleName) && maxParticipants == old(maxParticipants)
      ensures entryFee == old(entryFee) && turnTimeLimit == old(turnTimeLimit)
    {
      loadingDuringCall := false;
      if player.None? {
        return None, loadingDuringCall;
      }
      if Text.Trim(battleName) == [] {
        return None, loadingDuringCall;
      }
      loading := true;
      var request := BattleRequest(
        Text.Trim(battleName), "health_based", maxParticipants, entryFee, turnTimeLimit,
        player.value.rankLevel, BattleSettings(true, true, true));
      loadingDuringCall := loading;
      loading := false;
      return Some(request), loadingDuringCall;
    }
  }
}
