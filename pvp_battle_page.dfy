/**
 * The PvP page: which screen it shows (loading, the arena, the active-battle card or the
 * battle lists), the handlers that move between them, the creator's buttons on the card
 * and the lobby statistics.
 */
module PvPBattlePage {
  import opened Wrappers
  import opened GameTypes
  import BattleArena
  import BattleChat

  datatype View = LobbyView | BattleView

  /**
   * The remembered active battle: a full record found on mount, or only `{ id }` after
   * the page itself created, joined, started or re-entered a battle.
   */
  datatype ActiveBattle = Stub(id: string) | Full(battle: PvPBattle)

  function ActiveId(a: ActiveBattle): string {
    match a
    case Stub(id) => id
    case Full(b) => b.id
  }

  datatype Screen = Loading | Arena(battleId: string) | ActiveBattleCard | BattleLists

  /** What the page renders, in the order its early returns are tested. */
  function ScreenOf(loading: bool, view: View, selected: Option<string>, active: Option<ActiveBattle>): (s: Screen)
    ensures s.Arena? <==> !loading && view == BattleView && Truthy(selected)
    ensures s.Arena? ==> s.battleId == selected.value
    ensures s == ActiveBattleCard <==> !loading && active.Some? && view == LobbyView
    ensures s == Loading <==> loading
  {
    if loading then Loading
    else if view == BattleView && Truthy(selected) then Arena(selected.value)
    else if active.Some? && view == LobbyView then ActiveBattleCard
    else BattleLists
  }

  /** Whether the viewer counts as the creator on the card: `creator_id === player?.id`. */
  predicate ShowsCreatorActions(active: ActiveBattle, player: Option<GamePlayer>) {
    match active
    // both sides are undefined when the record is only `{ id }` and no player is loaded
    case Stub(_) => player.None?
    case Full(b) => player.Some? && b.creatorId == player.value.id
  }

  predicate IsWaiting(active: ActiveBattle) {
    active.Full? && active.battle.battleStatus == WaitingForPlayers
  }

  /** "Start Battle Now": creator, waiting, at least two players. */
  predicate ShowsStartNow(active: ActiveBattle, player: Option<GamePlayer>) {
    ShowsCreatorActions(active, player) && IsWaiting(active) && active.battle.currentParticipants >= 2
  }

  /** "Need 1 More Player": creator, waiting, fewer than two players. */
  predicate ShowsNeedMore(active: ActiveBattle, player: Option<GamePlayer>) {
    ShowsCreatorActions(active, player) && IsWaiting(active) && active.battle.currentParticipants < 2
  }

  /** "Cancel Battle": creator and still waiting. */
  predicate ShowsCancel(active: ActiveBattle, player: Option<GamePlayer>) {
    ShowsCreatorActions(active, player) && IsWaiting(active)
  }

  /**
   * The card's buttons agree with the arena's early-start rule: "Start Battle Now" is
   * shown exactly when the arena would let the same viewer start the same battle; a
   * waiting battle offers either it or "Need 1 More Player", never both, and always
   * "Cancel Battle"; a remembered `{ id }` offers none of them.
   */
  lemma CreatorButtons(active: ActiveBattle, player: Option<GamePlayer>)
    ensures ShowsStartNow(active, player) <==> active.Full? && BattleArena.CanStartEarly(Some(active.battle), player)
    ensures !(ShowsStartNow(active, player) && ShowsNeedMore(active, player))
    ensures ShowsCancel(active, player) <==> ShowsStartNow(active, player) || ShowsNeedMore(active, player)
    ensures active.Stub? ==> !ShowsCancel(active, player) && !ShowsStartNow(active, player)
  {
  }

  /** The "Create Battle" button is enabled only with a wallet and a player. */
  predicate CreateEnabled(connected: bool, hasPlayer: bool) {
    connected && hasPlayer
  }

  // ------------------------------------------------------------------ statistics

  /** `activeBattles.reduce((sum, battle) => sum + (battle.total_prize_pool || 0), 0)`; the pool is always a number here. */
  function PrizeSum(battles: seq<PvPBattle>): int {
    if |battles| == 0 then 0 else PrizeSum(battles[..|battles| - 1]) + battles[|battles| - 1].totalPrizePool
  }

  lemma {:induction false} PrizeSumAppend(a: seq<PvPBattle>, b: seq<PvPBattle>)
    ensures PrizeSum(a + b) == PrizeSum(a) + PrizeSum(b)
    decreases |b|
  {
    if |b| == 0 {
      assert a + b == a;
    } else {
      assert (a + b)[..|a + b| - 1] == a + b[..|b| - 1];
      PrizeSumAppend(a, b[..|b| - 1]);
    }
  }

  /** Pools are never negative, so neither is their sum, and no pool exceeds it. */
  lemma {:induction false} PrizeSumBounds(battles: seq<PvPBattle>)
    requires forall i :: 0 <= i < |battles| ==> battles[i].totalPrizePool >= 0
    ensures PrizeSum(battles) >= 0
    ensures forall i :: 0 <= i < |battles| ==> battles[i].totalPrizePool <= PrizeSum(battles)
  {
    if |battles| > 0 {
      var front := battles[..|battles| - 1];
      PrizeSumBounds(front);
      forall i | 0 <= i < |battles|
        ensures battles[i].totalPrizePool <= PrizeSum(battles)
      {
        if i < |battles| - 1 {
          assert battles[i] == front[i];
        }
      }
    }
  }

  /** The "Active Prize Pools" figure, accumulated as the `reduce` does. */
  method ActivePrizePools(battles: seq<PvPBattle>) returns (sum: int)
    ensures sum == PrizeSum(battles)
  {
    sum := 0;
    var i := 0;
    while i < |battles|
      invariant 0 <= i <= |battles|
      invariant sum == PrizeSum(battles[..i])
    {
      assert battles[..i + 1][..i] == battles[..i];
      sum := sum + battles[i].totalPrizePool;
      i := i + 1;
    }
    assert battles[..i] == battles;
  }

  /** `battle_duration_minutes || 0` summed over the history. */
  function DurationSum(durations: seq<Option<int>>): int {
    if |durations| == 0 then 0
    else DurationSum(durations[..|durations| - 1]) + durations[|durations| - 1].GetOr(0)
  }

  /** Rounding a mean `total / n` to the nearest integer leaves `total` within half of `n` of `n` times it. */
  lemma RoundedMean(total: real, n: real)
    requires n > 0.0
    ensures -n <= 2.0 * (total - (BattleChat.Round(total / n) as real) * n)
    ensures 2.0 * (total - (BattleChat.Round(total / n) as real) * n) < n
  {
    var mean := total / n;
    var k := BattleChat.Round(mean) as real;
    BattleChat.RoundIsNearest(mean);
    assert total == mean * n;
    var e := mean - k;
    assert total - k * n == n * e;
    assert n * (0.5 - e) > 0.0;
    assert n * (0.5 - e) == 0.5 * n - n * e;
    assert n * (e + 0.5) >= 0.0;
    assert n * (e + 0.5) == n * e + 0.5 * n;
    assert 2.0 * (total - k * n) == 2.0 * (n * e);
    assert n * e < 0.5 * n;
    assert 2.0 * (n * e) < n;
    assert k == BattleChat.Round(total / n) as real;
    assert 2.0 * (total - k * n) < n;
  }

  /** "Avg Duration": the rounded mean of the recorded durations, 0 with no history. */
  function AverageDuration(durations: seq<Option<int>>): (r: int)
    ensures |durations| == 0 ==> r == 0
    ensures |durations| > 0 ==>
      -(|durations| as real) <= 2.0 * (DurationSum(durations) as real - (r as real) * (|durations| as real)) < |durations| as real
  {
    if |durations| > 0 then
      var mean := DurationSum(durations) as real / |durations| as real;
      RoundedMean(DurationSum(durations) as real, |durations| as real);
      BattleChat.Round(mean)
    else 0
  }

  // ------------------------------------------------------------------ page state

  class PageState {
    var showCreateModal: bool
    var selectedBattleId: Option<string>
    var currentView: View
    var playerActiveBattle: Option<ActiveBattle>
    var checkingActiveBattle: bool

    function Screen(loading: bool): Screen
      reads this
    {
      ScreenOf(loading || checkingActiveBattle, currentView, selectedBattleId, playerActiveBattle)
    }

    constructor ()
      ensures !showCreateModal && selectedBattleId.None? && currentView == LobbyView
      ensures playerActiveBattle.None? && checkingActiveBattle
    {
      showCreateModal := false;
      selectedBattleId := None;
      currentView := LobbyView;
      playerActiveBattle := None;
      checkingActiveBattle := true;
    }

    /**
     * The mount effect: look up the player's active battle (`lookup` is the hook's
     * answer, `Err` when it throws) and go straight to it when there is one.
     */
    method CheckActiveBattle(hasPlayer: bool, lookup: Result<Option<PvPBattle>, ()>)
      modifies this
      ensures !checkingActiveBattle && showCreateModal == old(showCreateModal)
      ensures hasPlayer && lookup == Ok(None) ==>
        (playerActiveBattle.None? && selectedBattleId == old(selectedBattleId) && currentView == old(currentView))
      ensures hasPlayer && lookup.Ok? && lookup.value.Some? ==>
        var b := lookup.value.value;
        playerActiveBattle == Some(Full(b)) && selectedBattleId == Some(b.id) && currentView == BattleView
      ensures !hasPlayer || lookup.Err? ==>
        (playerActiveBattle == old(playerActiveBattle) && selectedBattleId == old(selectedBattleId)
         && currentView == old(currentView))
    {
      if hasPlayer {
        checkingActiveBattle := true;
        if lookup.Ok? {
          playerActiveBattle := if lookup.value.Some? then Some(Full(lookup.value.value)) else None;
          if lookup.value.Some? {
            selectedBattleId := Some(lookup.value.value.id);
            currentView := BattleView;
          }
        }
      }
      checkingActiveBattle := false;
    }

    /** The common success path of create, join, start and re-enter: show that battle. */
    method EnterBattle(battleId: string)
      modifies this
      ensures selectedBattleId == Some(battleId) && currentView == BattleView
      ensures playerActiveBattle == Some(Stub(battleId))
      ensures showCreateModal == old(showCreateModal) && checkingActiveBattle == old(checkingActiveBattle)
    {
      selectedBattleId := Some(battleId);
      currentView := BattleView;
      playerActiveBattle := Some(Stub(battleId));
    }

    /** `handleCreateBattle`: `created` is the new battle's id, `None` when creation throws. */
    method HandleCreateBattle(hasPlayer: bool, created: Option<string>)
      modifies this
      ensures hasPlayer && created.Some? ==>
        selectedBattleId == created && currentView == BattleView && !showCreateModal
        && playerActiveBattle == Some(Stub(created.value)) && checkingActiveBattle == old(checkingActiveBattle)
      ensures !(hasPlayer && created.Some?) ==> unchanged(this)
    {
      if hasPlayer && created.Some? {
        EnterBattle(created.value);
        showCreateModal := false;
      }
    }

    /**
     * `handleJoinBattle` and `handleStartBattle` (`requiresPlayer`) and the re-enter
     * wrapper (which has no player check): `ok` says whether the hook call returned.
     */
    method HandleEnter(requiresPlayer: bool, hasPlayer: bool, battleId: string, ok: bool)
      modifies this
      ensures (hasPlayer || !requiresPlayer) && ok ==>
        selectedBattleId == Some(battleId) && currentView == BattleView
        && playerActiveBattle == Some(Stub(battleId))
        && showCreateModal == old(showCreateModal) && checkingActiveBattle == old(checkingActiveBattle)
      ensures !((hasPlayer || !requiresPlayer) && ok) ==> unchanged(this)
    {
      if (hasPlayer || !requiresPlayer) && ok {
        EnterBattle(battleId);
      }
    }

    /** Back to the lobby lists, forgetting the battle. */
    method LeaveBattle()
      modifies this
      ensures playerActiveBattle.None? && currentView == LobbyView && selectedBattleId.None?
      ensures showCreateModal == old(showCreateModal) && checkingActiveBattle == old(checkingActiveBattle)
    {
      playerActiveBattle := None;
      currentView := LobbyView;
      selectedBattleId := None;
    }

    /** `handleCancelBattle`: `ok` says whether the cancellation succeeded. */
    method HandleCancelBattle(hasPlayer: bool, ok: bool)
      modifies this
      ensures hasPlayer && ok ==>
        (playerActiveBattle.None? && currentView == LobbyView && selectedBattleId.None?
         && showCreateModal == old(showCreateModal) && checkingActiveBattle == old(checkingActiveBattle))
      ensures !(hasPlayer && ok) ==> unchanged(this)
    {
      if hasPlayer && ok {
        LeaveBattle();
      }
    }

    /** `handleBackToLobby`. */
    method HandleBackToLobby()
      modifies this
      ensures playerActiveBattle.None? && currentView == LobbyView && selectedBattleId.None?
      ensures showCreateModal == old(showCreateModal) && checkingActiveBattle == old(checkingActiveBattle)
    {
      LeaveBattle();
    }

    /** "Enter Battle" on the card. */
    method HandleEnterFromCard()
      requires playerActiveBattle.Some?
      modifies this
      ensures selectedBattleId == Some(ActiveId(old(playerActiveBattle).value)) && currentView == BattleView
      ensures playerActiveBattle == old(playerActiveBattle) && showCreateModal == old(showCreateModal)
      ensures checkingActiveBattle == old(checkingActiveBattle)
    {
      selectedBattleId := Some(ActiveId(playerActiveBattle.value));
      currentView := BattleView;
    }

    /** "Create Battle": opens the modal when the button is enabled. */
    method OpenCreateModal(connected: bool, hasPlayer: bool)
      modifies this
      ensures showCreateModal == (old(showCreateModal) || CreateEnabled(connected, hasPlayer))
      ensures selectedBattleId == old(selectedBattleId) && currentView == old(currentView)
      ensures playerActiveBattle == old(playerActiveBattle) && checkingActiveBattle == old(checkingActiveBattle)
    {
      if CreateEnabled(connected, hasPlayer) {
        showCreateModal := true;
      }
    }
  }

  /**
   * Entering a battle with a non-empty id shows its arena once loading is over; leaving
   * shows the battle lists, not the card.
   */
  lemma ScreenAfterNavigation(loading: bool, battleId: string)
    ensures battleId != "" ==>
      (ScreenOf(loading, BattleView, Some(battleId), Some(Stub(battleId))) == if loading then Loading else Arena(battleId))
    ensures ScreenOf(loading, LobbyView, None, None) == (if loading then Loading else BattleLists)
  {
  }

  /**
   * An active battle remembered under an empty id never opens the arena: the page falls
   * through to the battle lists although its view is the battle view.
   */
  lemma EmptyIdShowsLists(active: Option<ActiveBattle>)
    ensures ScreenOf(false, BattleView, Some(""), active) == BattleLists
  {
  }
}
