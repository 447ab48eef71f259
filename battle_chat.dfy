/**
 * The battle chat: chat lines typed by the player, merged with the action log into one
 * timeline ordered by time, of which the last 50 entries are shown.  Chat lines live
 * only in this component's state.
 */
module BattleChat {
  import opened Wrappers
  import opened GameTypes
  import Text
  import Seqs

  datatype ChatMessage = ChatMessage(id: string, playerId: string, username: string, message: string, timestamp: int)

  /** One entry of the merged timeline. */
  datatype Entry = TurnEntry(turn: PvPBattleTurn) | ChatEntry(chat: ChatMessage)

  /** When an entry happened: a turn's start time, or the moment a chat line was sent. */
  function Timestamp(e: Entry): int {
    match e
    case TurnEntry(t) => t.turnStartTime
    case ChatEntry(c) => c.timestamp
  }

  function TurnEntries(turns: seq<PvPBattleTurn>): (r: seq<Entry>)
    ensures |r| == |turns| && forall i :: 0 <= i < |turns| ==> r[i] == TurnEntry(turns[i])
  {
    seq(|turns|, i requires 0 <= i < |turns| => TurnEntry(turns[i]))
  }

  function ChatEntries(chats: seq<ChatMessage>): (r: seq<Entry>)
    ensures |r| == |chats| && forall i :: 0 <= i < |chats| ==> r[i] == ChatEntry(chats[i])
  {
    seq(|chats|, i requires 0 <= i < |chats| => ChatEntry(chats[i]))
  }

  /** `allMessages`: every turn and every chat line, sorted by time (the sort is stable). */
  function AllMessages(turns: seq<PvPBattleTurn>, chats: seq<ChatMessage>): seq<Entry> {
    Seqs.SortBy(TurnEntries(turns) + ChatEntries(chats), Timestamp)
  }

  /**
   * The timeline holds each turn and each chat line exactly as often as they occur, and
   * nothing else, in non-decreasing order of time.
   */
  lemma AllMessagesIsSortedMerge(turns: seq<PvPBattleTurn>, chats: seq<ChatMessage>)
    ensures var all := AllMessages(turns, chats);
      && |all| == |turns| + |chats|
      && multiset(all) == multiset(TurnEntries(turns)) + multiset(ChatEntries(chats))
      && forall i, j :: 0 <= i < j < |all| ==> Timestamp(all[i]) <= Timestamp(all[j])
    ensures forall t :: t in turns ==> TurnEntry(t) in AllMessages(turns, chats)
    ensures forall c :: c in chats ==> ChatEntry(c) in AllMessages(turns, chats)
  {
    var ts, cs := TurnEntries(turns), ChatEntries(chats);
    Seqs.SortByMerge(ts, cs, Timestamp);
    forall t | t in turns ensures TurnEntry(t) in ts {
      var i :| 0 <= i < |turns| && turns[i] == t;
      assert ts[i] == TurnEntry(t);
    }
    forall c | c in chats ensures ChatEntry(c) in cs {
      var i :| 0 <= i < |chats| && chats[i] == c;
      assert cs[i] == ChatEntry(c);
    }
  }

  /** The entries the chat renders. */
  function Rendered(turns: seq<PvPBattleTurn>, chats: seq<ChatMessage>): seq<Entry> {
    Seqs.LastN(AllMessages(turns, chats), 50)
  }

  /** The rendered entries are the 50 latest of the timeline, still in order of time. */
  lemma RenderedAreLatest(turns: seq<PvPBattleTurn>, chats: seq<ChatMessage>)
    ensures var all := AllMessages(turns, chats); var r := Rendered(turns, chats);
      && |r| <= 50
      && (|all| <= 50 ==> r == all)
      && Seqs.SortedBy(r, Timestamp)
      && forall i, j :: 0 <= i < |all| - |r| && 0 <= j < |r| ==> Timestamp(all[i]) <= Timestamp(r[j])
  {
    Seqs.LastNOfSorted(AllMessages(turns, chats), 50, Timestamp);
  }

  // ------------------------------------------------------------------ turn text

  /** `Math.round`: the nearest integer, halves rounded up. */
  function Round(x: real): int {
    (x + 0.5).Floor
  }

  lemma RoundIsNearest(x: real)
    ensures -0.5 <= x - Round(x) as real < 0.5
  {
  }

  /** `formatTurnMessage`. */
  function TurnMessage(turn: PvPBattleTurn): string {
    match turn.actionType
    case "attack" => "attacked with " + turn.weaponUsed + " dealing " + Text.IntToString(Round(turn.damageDealt)) + " damage"
    case "defend" => "took a defensive stance"
    case "pass" => "passed their turn"
    case "special_ability" => "used a special ability"
    case _ => "performed an action"
  }

  /**
   * Attacks name their weapon and the damage, rounded, as a number that reads back; the
   * other three kinds of action each have their own fixed text, and any other action
   * type (such as the arena's "deploy_defense") is described only as "performed an action".
   */
  lemma TurnMessageKinds(turn: PvPBattleTurn)
    ensures turn.actionType == "attack" ==>
      var m, w := TurnMessage(turn), turn.weaponUsed;
      && |m| > 14 + |w| + 9 + 7
      && m[..14] == "attacked with " && m[14..14 + |w|] == w
      && m[14 + |w|..14 + |w| + 9] == " dealing " && m[|m| - 7..] == " damage"
      && Text.IsIntText(m[14 + |w| + 9..|m| - 7])
      && Text.ParseInt(m[14 + |w| + 9..|m| - 7]) == Round(turn.damageDealt)
    ensures turn.actionType == "defend" ==> TurnMessage(turn) == "took a defensive stance"
    ensures turn.actionType == "pass" ==> TurnMessage(turn) == "passed their turn"
    ensures turn.actionType == "special_ability" ==> TurnMessage(turn) == "used a special ability"
    ensures turn.actionType !in {"attack", "defend", "pass", "special_ability"} ==>
      TurnMessage(turn) == "performed an action"
    ensures turn.actionType == "deploy_defense" ==> TurnMessage(turn) == "performed an action"
  {
    if turn.actionType == "attack" {
      var m := TurnMessage(turn);
      var w := turn.weaponUsed;
      var n := Text.IntToString(Round(turn.damageDealt));
      assert m == "attacked with " + w + " dealing " + n + " damage";
      assert m[..14] == "attacked with ";
      assert m[14..14 + |w|] == w;
      assert m[14 + |w|..14 + |w| + 9] == " dealing ";
      assert m[14 + |w| + 9..|m| - 7] == n;
      assert m[|m| - 7..] == " damage";
      Text.ParseIntToString(Round(turn.damageDealt));
    }
  }

  // ------------------------------------------------------------------ sending

  /** The chat input and the lines sent so far. */
  class ChatState {
    var message: string
    var chatMessages: seq<ChatMessage>

    constructor ()
      ensures message == "" && chatMessages == []
    {
      message := "";
      chatMessages := [];
    }

    /** Typing in the input, which takes at most 200 UTF-16 code units. */
    method SetMessage(m: string)
      requires Text.Utf16Length(m) <= 200
      modifies this
      ensures message == m && chatMessages == old(chatMessages)
    {
      message := m;
    }

    /**
     * `handleSendMessage`, with `now` the clock reading in milliseconds: a non-blank
     * message from a known player is appended, trimmed, and the input is cleared.
     */
    method HandleSendMessage(currentPlayer: Option<GamePlayer>, now: int)
      modifies this
      ensures Text.Trim(old(message)) == [] || currentPlayer.None? ==> unchanged(this)
      ensures Text.Trim(old(message)) != [] && currentPlayer.Some? ==>
        && chatMessages == old(chatMessages) + [ChatMessage(Text.IntToString(now), currentPlayer.value.id,
                                                            currentPlayer.value.username, Text.Trim(old(message)), now)]
        && message == ""
    {
      if Text.Trim(message) == [] || currentPlayer.None? {
        return;
      }
      var newMessage := ChatMessage(Text.IntToString(now), currentPlayer.value.id, currentPlayer.value.username,
                                    Text.Trim(message), now);
      chatMessages := chatMessages + [newMessage];
      message := "";
    }
  }

  /** A sent line joins the timeline once, and nothing else in it changes. */
  lemma SentMessageJoinsTimeline(turns: seq<PvPBattleTurn>, chats: seq<ChatMessage>, m: ChatMessage)
    ensures multiset(AllMessages(turns, chats + [m])) == multiset(AllMessages(turns, chats)) + multiset{ChatEntry(m)}
  {
    assert ChatEntries(chats + [m]) == ChatEntries(chats) + [ChatEntry(m)];
  }
}
