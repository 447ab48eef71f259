/**
 * The lobby list of PvP battles: who may join a battle, how its rank limit and status
 * are shown, and how long ago it was created.
 */
module PvPBattleList {
  import opened Wrappers
  import opened GameTypes
  import Text

  /** `battle.max_rank` read as a JavaScript condition: present and not 0. */
  predicate HasRankLimit(b: PvPBattle) {
    b.maxRank.Some? && b.maxRank.value != 0
  }

  /** `battle.participants?.some(p => p.player_id === id)`; an absent list has no one. */
  predicate IsParticipant(b: PvPBattle, playerId: string) {
    b.participants.Some? && exists q :: q in b.participants.value && q.playerId == playerId
  }

  /** `canJoinBattle`: the join button is offered for `battle` to `player`. */
  predicate CanJoinBattle(player: Option<GamePlayer>, b: PvPBattle) {
    if player.None? then false
    else if b.battleStatus != WaitingForPlayers then false
    else if b.currentParticipants >= b.maxParticipants then false
    else if HasRankLimit(b) && player.value.rankLevel > b.maxRank.value then false
    else !IsParticipant(b, player.value.id)
  }

  /** Each reason `canJoinBattle` gives for refusing, and that nothing else refuses. */
  lemma CanJoinBattleExactly(player: Option<GamePlayer>, b: PvPBattle)
    ensures player.None? ==> !CanJoinBattle(player, b)
    ensures b.battleStatus != WaitingForPlayers ==> !CanJoinBattle(player, b)
    ensures b.currentParticipants >= b.maxParticipants ==> !CanJoinBattle(player, b)
    ensures player.Some? && HasRankLimit(b) && player.value.rankLevel > b.maxRank.value ==>
      !CanJoinBattle(player, b)
    ensures player.Some? && IsParticipant(b, player.value.id) ==> !CanJoinBattle(player, b)
    ensures (player.Some? && b.battleStatus == WaitingForPlayers && b.currentParticipants < b.maxParticipants
             && (HasRankLimit(b) ==> player.value.rankLevel <= b.maxRank.value)
             && !IsParticipant(b, player.value.id)) ==> CanJoinBattle(player, b)
  {
  }

  datatype Tint = Gray | Green | Yellow | Red | Blue

  /** `getRankRequirementColor`. */
  function RankRequirementColor(player: Option<GamePlayer>, b: PvPBattle): (c: Tint)
    ensures c == Gray <==> player.None? || !HasRankLimit(b)
    ensures c == Green <==> player.Some? && HasRankLimit(b) && player.value.rankLevel <= b.maxRank.value
    ensures c == Red <==> player.Some? && HasRankLimit(b) && player.value.rankLevel > b.maxRank.value
  {
    if player.None? || !HasRankLimit(b) then Gray
    else if player.value.rankLevel <= b.maxRank.value then Green
    else Red
  }

  /** A joinable battle never shows its rank limit in red to the player. */
  lemma JoinableIsNeverRed(player: Option<GamePlayer>, b: PvPBattle)
    requires CanJoinBattle(player, b)
    ensures RankRequirementColor(player, b) != Red
  {
  }

  /**
   * `getRankRequirementText`; `rankName` stands for the name `getPlayerRank` gives a
   * player of that rank level (the rank table is not part of this model).
   */
  function RankRequirementText(b: PvPBattle, rankName: int -> string): (t: string)
    ensures !HasRankLimit(b) ==> t == "Any Rank"
    ensures HasRankLimit(b) ==> |t| > 14 && t[..5] == "Max: " && t[|t| - 1] == ')'
  {
    if !HasRankLimit(b) then "Any Rank"
    else "Max: " + rankName(b.maxRank.value) + " (Level " + Text.IntToString(b.maxRank.value) + ")"
  }

  /**
   * A rank limit is shown as "Max: ", the rank's name, " (Level ", and then a number
   * that reads back as the limit, before the closing parenthesis; `k` is where the
   * name ends.
   */
  lemma RankRequirementTextReadsBack(b: PvPBattle, rankName: int -> string) returns (k: nat)
    requires HasRankLimit(b)
    ensures var t := RankRequirementText(b, rankName);
      && 5 <= k && k + 9 < |t|
      && t[..5] == "Max: " && t[5..k] == rankName(b.maxRank.value)
      && t[k..k + 8] == " (Level " && t[|t| - 1] == ')'
      && Text.IsIntText(t[k + 8..|t| - 1]) && Text.ParseInt(t[k + 8..|t| - 1]) == b.maxRank.value
  {
    var v := b.maxRank.value;
    var name, digits := rankName(v), Text.IntToString(v);
    var t := RankRequirementText(b, rankName);
    assert t == "Max: " + name + " (Level " + digits + ")";
    k := 5 + |name|;
    assert t[5..k] == name;
    assert t[k..k + 8] == " (Level ";
    assert t[k + 8..|t| - 1] == digits;
    Text.ParseIntToString(v);
  }

  /** Whole minutes between two millisecond times, rounded down as `Math.floor` does. */
  function MinutesBetween(now: int, time: int): int {
    (now - time) / 60000
  }

  /** `formatTimeAgo`, with the current clock reading passed in. */
  function FormatTimeAgo(now: int, time: int): (r: string)
  {
    var n := MinutesBetween(now, time);
    if n < 1 then "Just now"
    else if n < 60 then Text.NatToString(n) + "m ago"
    else if n < 1440 then Text.NatToString(n / 60) + "h ago"
    else Text.NatToString(n / 1440) + "d ago"
  }

  /**
   * The number printed by `formatTimeAgo` reads back as the elapsed minutes, whole
   * hours or whole days, according to the bucket the elapsed minutes fall in.
   */
  lemma FormatTimeAgoReadsBack(now: int, time: int)
    ensures var n := MinutesBetween(now, time); var r := FormatTimeAgo(now, time);
      && (n < 1 <==> r == "Just now")
      && (n >= 1 ==> |r| > 5 && Text.AllDigits(r[..|r| - 5]))
      && (1 <= n < 60 ==> r[|r| - 5..] == "m ago" && Text.ParseNat(r[..|r| - 5]) == n)
      && (60 <= n < 1440 ==> r[|r| - 5..] == "h ago" && Text.ParseNat(r[..|r| - 5]) == n / 60)
      && (1440 <= n ==> r[|r| - 5..] == "d ago" && Text.ParseNat(r[..|r| - 5]) == n / 1440)
  {
    var n := MinutesBetween(now, time);
    var r := FormatTimeAgo(now, time);
    if n >= 1 {
      var q: nat := if n < 60 then n else if n < 1440 then n / 60 else n / 1440;
      var digits := Text.NatToString(q);
      var unit := if n < 60 then "m ago" else if n < 1440 then "h ago" else "d ago";
      assert r == digits + unit;
      assert r[..|r| - 5] == digits;
      assert r[|r| - 5..] == unit;
      Text.ParseNatToString(q);
    } else {
      assert r == "Just now";
    }
  }

  /** `getBattleStatusColor`, over the raw status string; each tint stands for its text, border and background classes. */
  function BattleStatusColor(status: string): Tint {
    match status
    case "waiting_for_players" => Green
    case "starting" => Yellow
    case "in_progress" => Red
    case "completed" => Blue
    case "cancelled" => Gray
    case _ => Gray
  }

  /**
   * Each of the four live statuses has a colour of its own; 'cancelled' shares the gray
   * of every unrecognised string.
   */
  lemma BattleStatusColors(s: BattleStatus, t: BattleStatus, other: string)
    requires other !in {"waiting_for_players", "starting", "in_progress", "completed", "cancelled"}
    ensures s != t && s != Cancelled && t != Cancelled ==>
      BattleStatusColor(StatusName(s)) != BattleStatusColor(StatusName(t))
    ensures BattleStatusColor(StatusName(s)) == BattleStatusColor(other) <==> s == Cancelled
  {
  }
}
