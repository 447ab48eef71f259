/**
 * The battle HUD: battle status, the player's own standing, the turn timer and the
 * list of commanders.  Its countdown text is `BattleArena.FormatTime` (the HUD repeats
 * the same `formatTime`).
 */
module BattleHUD {
  import opened Wrappers
  import opened GameTypes
  import Seqs
  import BattleArena

  predicate IsActive(p: PvPBattleParticipant) {
    !p.isEliminated
  }

  predicate IsEliminated(p: PvPBattleParticipant) {
    p.isEliminated
  }

  function ActiveParticipants(participants: seq<PvPBattleParticipant>): seq<PvPBattleParticipant> {
    Seqs.Filter(participants, IsActive)
  }

  /** "Active Players": the number of participants not eliminated. */
  function ActiveCount(participants: seq<PvPBattleParticipant>): nat {
    |ActiveParticipants(participants)|
  }

  /** Active and eliminated participants together make up the whole list. */
  lemma ActiveCountComplement(participants: seq<PvPBattleParticipant>)
    ensures ActiveCount(participants) + Seqs.Count(participants, IsEliminated) == |participants|
    ensures ActiveCount(participants) == |participants| <==> forall i :: 0 <= i < |participants| ==> !participants[i].isEliminated
  {
    Seqs.FilterPartition(participants, IsActive, IsEliminated);
    if ActiveCount(participants) == |participants| {
      forall i | 0 <= i < |participants| ensures !participants[i].isEliminated {
        if participants[i].isEliminated {
          Seqs.FilterMembership(participants, IsEliminated, participants[i]);
        }
      }
    } else {
      var e := Seqs.Filter(participants, IsEliminated);
      assert e[0] in participants && e[0].isEliminated by {
        Seqs.FilterMembership(participants, IsEliminated, e[0]);
      }
    }
  }

  /** "Position": one more than the player's index among the active participants. */
  function Position(participants: seq<PvPBattleParticipant>, playerId: string): int {
    Seqs.FindIndex(ActiveParticipants(participants), (p: PvPBattleParticipant) => p.playerId == playerId) + 1
  }

  /**
   * An active player's position counts the active participants up to and including them;
   * a player who is not among the active participants is shown at position 0.
   */
  lemma PositionMeaning(participants: seq<PvPBattleParticipant>, playerId: string)
    ensures var pos := Position(participants, playerId); var active := ActiveParticipants(participants);
      && 0 <= pos <= ActiveCount(participants)
      && (pos == 0 <==> forall p :: p in participants && p.playerId == playerId ==> p.isEliminated)
      && (pos > 0 ==> active[pos - 1].playerId == playerId
                      && forall j :: 0 <= j < pos - 1 ==> active[j].playerId != playerId)
  {
    var active := ActiveParticipants(participants);
    forall p | p in participants && p.playerId == playerId && !p.isEliminated
      ensures Position(participants, playerId) > 0
    {
      Seqs.FilterMembership(participants, IsActive, p);
      var j :| 0 <= j < |active| && active[j] == p;
    }
    if Position(participants, playerId) > 0 {
      var q := active[Position(participants, playerId) - 1];
      Seqs.FilterMembership(participants, IsActive, q);
    }
  }

  datatype TimerColor = Red | Orange | Green

  function TimerColorOf(timeRemaining: int): TimerColor {
    if timeRemaining < 60 then Red else if timeRemaining < 120 then Orange else Green
  }

  /** The "Turn expires soon" warning. */
  predicate AutoPassWarning(timeRemaining: int, status: BattleStatus) {
    0 < timeRemaining <= 30 && status == InProgress
  }

  /**
   * The timer colour only moves towards red as time runs out, and whenever the
   * auto-pass warning shows the timer is already red.
   */
  lemma TimerColorBands(t: int, u: int, status: BattleStatus)
    ensures t <= u && TimerColorOf(u) == Red ==> TimerColorOf(t) == Red
    ensures t <= u && TimerColorOf(u) == Orange ==> TimerColorOf(t) != Green
    ensures AutoPassWarning(t, status) ==> TimerColorOf(t) == Red
  {
  }

  /** The "ACTIVE" mark of the commander list: the participant holding the turn, unless eliminated. */
  predicate IsActiveTurn(p: PvPBattleParticipant, currentTurnPlayerId: Option<string>) {
    currentTurnPlayerId.Some? && p.playerId == currentTurnPlayerId.value && !p.isEliminated
  }

  /** With distinct player ids, at most one commander carries the "ACTIVE" mark, and never an eliminated one. */
  lemma AtMostOneActiveTurn(participants: seq<PvPBattleParticipant>, currentTurnPlayerId: Option<string>, i: int, j: int)
    requires forall a, b :: 0 <= a < b < |participants| ==> participants[a].playerId != participants[b].playerId
    requires 0 <= i < |participants| && 0 <= j < |participants|
    requires IsActiveTurn(participants[i], currentTurnPlayerId) && IsActiveTurn(participants[j], currentTurnPlayerId)
    ensures i == j && !participants[i].isEliminated
  {
  }

  /** The line under the HUD saying whose turn it is. */
  datatype TurnMessage = YourTurn | WaitingForMorePlayers | WaitingFor(username: string, timeLeft: string) | Loading

  /**
   * The instruction line: the player's own turn first, then a battle still gathering
   * players, then the name of the first participant holding the turn with the countdown
   * of `formatTime`, and "Loading" when no participant holds the turn.
   */
  function TurnMessageOf(isMyTurn: bool, b: PvPBattle, participants: seq<PvPBattleParticipant>, timeRemaining: int)
    : (m: TurnMessage)
    ensures m == YourTurn <==> isMyTurn
    ensures m == WaitingForMorePlayers <==> !isMyTurn && b.battleStatus == WaitingForPlayers
    ensures m.WaitingFor? ==>
      && !isMyTurn && b.battleStatus != WaitingForPlayers
      && m.timeLeft == BattleArena.FormatTime(timeRemaining)
      && exists k :: 0 <= k < |participants| && b.currentTurnPlayerId == Some(participants[k].playerId)
           && participants[k].username == m.username
           && forall j :: 0 <= j < k ==> b.currentTurnPlayerId != Some(participants[j].playerId)
    ensures m == Loading <==>
      && !isMyTurn && b.battleStatus != WaitingForPlayers
      && forall i :: 0 <= i < |participants| ==> b.currentTurnPlayerId != Some(participants[i].playerId)
  {
    if isMyTurn then YourTurn
    else if b.battleStatus == WaitingForPlayers then WaitingForMorePlayers
    else match Seqs.Find(participants, (p: PvPBattleParticipant) =>
        b.currentTurnPlayerId.Some? && p.playerId == b.currentTurnPlayerId.value)
      case Some(p) => WaitingFor(p.username, BattleArena.FormatTime(timeRemaining))
      case None => Loading
  }

  /**
   * The instruction line agrees with the commander list: with distinct player ids, the
   * commander carrying the "ACTIVE" mark is the one the line waits for, and while the
   * line says "Loading" no commander carries the mark.
   */
  lemma TurnMessageNamesActiveCommander(isMyTurn: bool, b: PvPBattle, participants: seq<PvPBattleParticipant>,
                                        timeRemaining: int, i: int)
    requires forall x, y :: 0 <= x < y < |participants| ==> participants[x].playerId != participants[y].playerId
    requires 0 <= i < |participants|
    ensures var m := TurnMessageOf(isMyTurn, b, participants, timeRemaining);
      && (m.WaitingFor? && IsActiveTurn(participants[i], b.currentTurnPlayerId) ==> m.username == participants[i].username)
      && (m == Loading ==> !IsActiveTurn(participants[i], b.currentTurnPlayerId))
  {
    var m := TurnMessageOf(isMyTurn, b, participants, timeRemaining);
    if m.WaitingFor? && IsActiveTurn(participants[i], b.currentTurnPlayerId) {
      var k :| 0 <= k < |participants| && b.currentTurnPlayerId == Some(participants[k].playerId)
        && participants[k].username == m.username;
      assert k == i;
    }
  }

  // ------------------------------------------------------------------ status label

  /** `toUpperCase` on the characters a status name uses: ASCII letters. */
  function UpperChar(c: char): char {
    if 'a' <= c <= 'z' then (c as int - 32) as char else c
  }

  function ToUpper(s: string): (r: string)
    ensures |r| == |s| && forall i :: 0 <= i < |s| ==> r[i] == UpperChar(s[i])
  {
    if s == [] then [] else [UpperChar(s[0])] + ToUpper(s[1..])
  }

  /** `s.replace('_', ' ')`: a string pattern replaces only its first occurrence. */
  function ReplaceFirst(s: string, from: char, to: char): (r: string)
    ensures |r| == |s|
  {
    if s == [] then []
    else if s[0] == from then [to] + s[1..]
    else [s[0]] + ReplaceFirst(s[1..], from, to)
  }

  /** Every occurrence replaced, as the label evidently means. */
  function ReplaceAll(s: string, from: char, to: char): (r: string)
    ensures |r| == |s|
    ensures forall i :: 0 <= i < |s| ==> r[i] == if s[i] == from then to else s[i]
  {
    if s == [] then [] else [if s[0] == from then to else s[0]] + ReplaceAll(s[1..], from, to)
  }

  /** `s.replace('_', ' ')` on a string whose first underscore is at `k`. */
  lemma {:induction false} ReplaceFirstAt(s: string, from: char, to: char, k: nat)
    requires k < |s| && s[k] == from && forall j :: 0 <= j < k ==> s[j] != from
    ensures ReplaceFirst(s, from, to) == s[..k] + [to] + s[k + 1..]
  {
    if k > 0 {
      ReplaceFirstAt(s[1..], from, to, k - 1);
      assert s[1..][..k - 1] == s[1..k];
      assert s[..k] == [s[0]] + s[1..k];
    }
  }

  /** The status label as the HUD builds it from the status string. */
  function StatusLabelAsWritten(status: string): string {
    ToUpper(ReplaceFirst(status, '_', ' '))
  }

  /** The status label with every underscore turned into a space. */
  function StatusLabel(status: string): string {
    ToUpper(ReplaceAll(status, '_', ' '))
  }

  /**
   * As written, only the first underscore of a status becomes a space: any later one
   * stays in the label.
   */
  lemma StatusLabelKeepsLaterUnderscore(status: string, k: nat, m: nat)
    requires k < m < |status| && status[k] == '_' && status[m] == '_'
    requires forall j :: 0 <= j < k ==> status[j] != '_'
    ensures StatusLabelAsWritten(status)[k] == ' ' && StatusLabelAsWritten(status)[m] == '_'
  {
    ReplaceFirstAt(status, '_', ' ', k);
  }

  /** The instance: "waiting_for_players" is shown as "WAITING FOR_PLAYERS". */
  lemma WaitingLabelKeepsUnderscore(status: string)
    requires status == StatusName(WaitingForPlayers)
    ensures StatusLabelAsWritten(status)[11] == '_'
    ensures StatusLabel(status)[11] == ' '
  {
    assert status[7] == '_' && status[11] == '_';
    assert forall j :: 0 <= j < 7 ==> status[j] != '_';
    StatusLabelKeepsLaterUnderscore(status, 7, 11);
  }

  /**
   * The corrected label has no underscore left; in a status without spaces, its spaces
   * stand exactly where the underscores were.
   */
  lemma StatusLabelHasNoUnderscore(status: string)
    ensures var l := StatusLabel(status);
      && |l| == |status|
      && (forall i :: 0 <= i < |l| ==> l[i] != '_')
      && ((forall i :: 0 <= i < |status| ==> status[i] != ' ') ==>
            forall i :: 0 <= i < |l| ==> (status[i] == '_' <==> l[i] == ' '))
  {
  }
}
