# Nuked World Battles — a Dafny model of the battle escrow and the PvP client logic

Nuked World Battles is a browser war game on Solana. Players enlist for a country, buy
rockets and defence systems by burning the $NUKED token, and fight turn-based PvP battles.
Each battle has an entry fee. The fees are held by an on-chain escrow program, and the winner
receives 95 % of the pot while the developer wallet receives 5 %.

This project models two parts of that system and proves properties of them:

- **The escrow program** (`anchor/programs/nuked-world-battles/src/lib.rs`), in `battle_escrow.dfy`.
  - The accounts `BattlePool` and `BattleDeposit` are Dafny classes whose fields the
    instructions update in place. The SPL token accounts are a `TokenLedger` class holding
    a balance map.
  - Every instruction is a method whose `ensures` clause ties the new state to a pure
    transition function (`Join`, `Complete`, `Payout`). On an error it leaves every account
    unchanged.
  - The lemmas prove what those transitions preserve: `current_participants <= max_participants`
    and `total_deposited == current_participants * entry_fee`. They also prove that a join
    reaches `ReadyToStart` exactly when the battle is full, and that the payout splits the pot
    exactly.
- **The client decision logic** of the thirteen React components that run a battle.
  - One module per component: the battle list, create-battle modal, arena, map, turn panel,
    HUD, chat, home page, arsenal, PvP page, navigation bar, Leaflet world map and country
    selector.
  - Pure helpers (`canJoinBattle`, `formatTime`, the grouping `reduce`s, sorts and filters)
    become functions, each with lemmas relating it to an independent description.
  - Handlers that set component state one step at a time become methods of small classes.
    Each holds that component's `useState` fields. Each method's `ensures` gives the whole
    new state.

Shared pieces:
- `wrappers.dfy`: `Option` and `Result`.
- `text.dfy`: JavaScript `trim`, decimal printing and parsing, `padStart`.
- `seqs.dfy`: `filter`, a stable sort by key, group-by-key as a loop, `slice(-n)`.
- `game_types.dfy`: the records of `src/types/game.ts`.

Inputs that the components get from code outside this model are parameters of the Dafny
members. These are: the rank table, the weapon availability list, `canDeployDefenseSystem`,
`isDevWallet`, the token prices, the country table and the outcome of every awaited call
(a boolean or a small outcome datatype). Clock readings are parameters in milliseconds, and
timestamps are already-parsed integers.

## Model

| member | source | states |
|---|---|---|
| BattleEscrow.BattlePool.Initialize | anchor/programs/nuked-world-battles/src/lib.rs:10-17 | the pool records the dev wallet and starts with nothing deposited and nothing paid out |
| BattleEscrow.NewDeposit | anchor/programs/nuked-world-battles/src/lib.rs:19-35 | a new deposit copies creator, entry fee and capacity, has no participants, no deposits, no winner, status WaitingForPlayers, and satisfies the deposit invariant |
| BattleEscrow.BattleDeposit.CreateBattleDeposit | anchor/programs/nuked-world-battles/src/lib.rs:19-35 | the account's fields become exactly the new deposit, which is valid |
| BattleEscrow.Transfer | anchor/programs/nuked-world-battles/src/lib.rs:52-59 | a token transfer succeeds iff the source holds the amount; it debits the source, credits the destination and leaves every other account alone |
| BattleEscrow.TokenLedger.ApplyTransfer | anchor/programs/nuked-world-battles/src/lib.rs:52-59 | the ledger applies a transfer all-or-nothing: on failure the balances are unchanged |
| BattleEscrow.Join | anchor/programs/nuked-world-battles/src/lib.rs:37-72 | a join fails with BattleNotJoinable unless waiting, with BattleFull when full, and fails when the player cannot pay; it succeeds iff joinable and funded. Then the deposit gains one participant and one entry fee and becomes ReadyToStart when full, keeping id, creator, fee, capacity and winner; the pool total gains the fee; and the ledger is the token transfer of the fee from the player's account to the pool's |
| BattleEscrow.JoinMovesFee | anchor/programs/nuked-world-battles/src/lib.rs:51-59 | after a join the player's token account has lost the entry fee, the pool's has gained it, and every other balance is unchanged (stated per account, so it also holds when the two accounts coincide) |
| BattleEscrow.JoinBattle | anchor/programs/nuked-world-battles/src/lib.rs:37-72 | the instruction leaves deposit, pool and ledger exactly as `Join` says, and unchanged with the same error when `Join` fails |
| BattleEscrow.JoinKeepsValid | anchor/programs/nuked-world-battles/src/lib.rs:62-69 | a successful join keeps `current <= max` and `total_deposited == current * entry_fee` |
| BattleEscrow.JoinReadyExactlyWhenFull | anchor/programs/nuked-world-battles/src/lib.rs:66-69 | after a join the status is ReadyToStart iff the count reached the capacity, and is otherwise still WaitingForPlayers |
| BattleEscrow.FullBattleRejectsJoin | anchor/programs/nuked-world-battles/src/lib.rs:41-49 | once a valid deposit is full, every further join fails |
| BattleEscrow.Complete | anchor/programs/nuked-world-battles/src/lib.rs:74-85 | completing succeeds iff the signer is the pool's dev wallet (else UnauthorizedDev), and then sets the winner and Completed whatever the earlier status |
| BattleEscrow.CompleteBattle | anchor/programs/nuked-world-battles/src/lib.rs:74-85 | the instruction leaves the deposit exactly as `Complete` says, and unchanged on error |
| BattleEscrow.WinnerPayout | anchor/programs/nuked-world-battles/src/lib.rs:109-111 | the winner's share is never negative |
| BattleEscrow.PayoutSplitsPot | anchor/programs/nuked-world-battles/src/lib.rs:108-111 | the dev fee and the winner's share add up to the whole pot, and the fee is 5 % rounded down |
| BattleEscrow.Payout | anchor/programs/nuked-world-battles/src/lib.rs:87-141 | a payout fails with the first failing check, in the order UnauthorizedDev, BattleNotCompleted, NoWinner, InvalidWinner; on success the status becomes PaidOut and the pool's paid-out total grows by the whole pot, while the deposit's total is kept |
| BattleEscrow.PayoutWinner | anchor/programs/nuked-world-battles/src/lib.rs:87-141 | the instruction leaves deposit, pool and ledger exactly as `Payout` says, and unchanged on error |
| BattleEscrow.PayoutMovesPot | anchor/programs/nuked-world-battles/src/lib.rs:113-134 | for every token account: after a payout it has lost the pot if it is the pool's, and gained the winner's share if it is the winner's and the fee if it is the dev's, however the accounts coincide; when the pool's account is not the winner's, a payout succeeds iff every check passes and the pool account holds the pot |
| BattleEscrow.DevWinnerGetsWholePot | anchor/programs/nuked-world-battles/src/lib.rs:113-134 | when the dev wallet wins and one token account receives both transfers, that account gains the whole pot and the pool's loses it |
| BattleEscrow.CompleteAndPayoutKeepValid | anchor/programs/nuked-world-battles/src/lib.rs:74-141 | completing and paying out keep the deposit invariant |
| BattleEscrow.PaidOutBattleCanBePaidAgain | anchor/programs/nuked-world-battles/src/lib.rs:82-98 | because completion has no status check, a PaidOut battle can be completed and paid out a second time, paying its whole total again; the only requirement on the token accounts is that the pool's is not the winner's |
| PvPBattleList.CanJoinBattleExactly | src/components/PvPBattleList.tsx:75-86 | joining is refused with no player, when not waiting, when full, when a rank limit is exceeded, or when already a participant; it is allowed in every other case |
| PvPBattleList.RankRequirementColor | src/components/PvPBattleList.tsx:88-96 | gray iff there is no player or no rank limit; green iff the player's level is within the limit; red iff it exceeds it |
| PvPBattleList.JoinableIsNeverRed | src/components/PvPBattleList.tsx:75-96 | a battle the player may join never shows the red rank requirement |
| PvPBattleList.RankRequirementText | src/components/PvPBattleList.tsx:98-104 | "Any Rank" exactly when there is no rank limit; otherwise the text starts with "Max: " and ends with ")" |
| PvPBattleList.RankRequirementTextReadsBack | src/components/PvPBattleList.tsx:98-104 | with a rank limit, the text is "Max: ", then the rank's name, then " (Level ", then a number that reads back as the limit, then ")" |
| PvPBattleList.FormatTimeAgoReadsBack | src/components/PvPBattleList.tsx:106-115 | "Just now" iff under a minute; otherwise the digits read back as the minutes, the whole hours or the whole days, with the matching "m ago"/"h ago"/"d ago" suffix |
| PvPBattleList.BattleStatusColors | src/components/PvPBattleList.tsx:64-73 | the four live statuses get four different colours, and an unknown status gets the same colour as a cancelled one and no other |
| CreateBattleModal.DevFeeIsIntegerDivision | src/components/CreateBattleModal.tsx:70 | the displayed dev fee is the pool times 5, divided by 100 and rounded down |
| CreateBattleModal.PrizeSplit | src/components/CreateBattleModal.tsx:69-71 | the dev fee and winner payout lie between 0 and the pool and add up to it |
| CreateBattleModal.SplitMatchesPayout | src/components/CreateBattleModal.tsx:69-71 | for a full battle the modal's fee and payout equal what the escrow's payout instruction transfers |
| CreateBattleModal.OptionsFitTheEscrow | src/components/CreateBattleModal.tsx:142-166 | every selectable capacity fits the escrow's u8 and every selectable pool keeps the 5 % computation within u64 |
| CreateBattleModal.CreateBattleForm.constructor | src/components/CreateBattleModal.tsx:31-35 | the form starts empty with 4 players, 1000 fee, 300 s turns, not loading |
| CreateBattleModal.CreateBattleForm.SetBattleName | src/components/CreateBattleModal.tsx:96-101 | typing changes only the name, which holds at most 50 UTF-16 code units |
| CreateBattleModal.CreateBattleForm.Select | src/components/CreateBattleModal.tsx:138-184 | the selects only ever hold one of their offered options |
| CreateBattleModal.CreateBattleForm.HandleSubmit | src/components/CreateBattleModal.tsx:38-67 | nothing is sent without a player or with a blank name; otherwise the request carries the trimmed name, "health_based", the selections and the creator's rank level, and loading is on during the call and off afterwards |
| BattleArena.StartEarlyRequest | src/components/BattleArena.tsx:206-221 | the early start is requested iff the player is the creator of a waiting battle with at least two participants, with the battle id and creator id |
| BattleArena.FormatTimeZero | src/components/BattleArena.tsx:223-224 | the timer reads "0:00" exactly for a non-positive number of seconds |
| BattleArena.FormatTimeReadsBack | src/components/BattleArena.tsx:223-228 | a positive time prints as digits, a colon and exactly two digits; read back, they give the seconds below 60 and 60 × minutes + seconds == the input |
| BattleArena.ClockReadsBack | src/components/BattleArena.tsx:225-227 | "m:ss" reads back as the minutes and the zero-padded seconds |
| BattleArena.ParseTwoDigits | src/components/BattleArena.tsx:227 | padding a number below 60 gives exactly two digits that read back as the number |
| BattleArena.AvailableTargetsExactly | src/components/BattleArena.tsx:342-344 | a participant is a target iff it is neither eliminated nor the player, and the targets keep the participants' order |
| BattleArena.LimitedArsenalMeansUnaffordable | src/components/BattleArena.tsx:787 | the Limited Arsenal warning shows iff some weapon of the table costs more rockets than the player has, and more rockets never disable a weapon |
| BattleArena.ArenaState.constructor | src/components/BattleArena.tsx:63-71 | no target, no weapon, not in target mode, menus closed |
| BattleArena.ArenaState.AutoTargetMode | src/components/BattleArena.tsx:166-170 | target mode switches on when an in-progress battle reaches the player's turn, and nothing else changes |
| BattleArena.ArenaState.HandleAttack | src/components/BattleArena.tsx:230-253 | an attack is sent iff there is a player, a target and a weapon; after an accepted attack the selection, target mode and menus are cleared, otherwise nothing changes |
| BattleArena.ArenaState.HandleDefend | src/components/BattleArena.tsx:255-285 | a defence is sent iff there is a player and either no equipment is loaded or it can deploy; only an accepted one closes the menus |
| BattleArena.ArenaState.HandlePass | src/components/BattleArena.tsx:287-305 | a pass is sent iff there is a player; only an accepted one closes the menus |
| BattleArena.ArenaState.CancelAttack | src/components/BattleArena.tsx:799-804 | cancelling clears target, weapon and target mode |
| BattleMap.ParticipantCountries | src/components/BattleMap.tsx:47-60 | each entry carries the participant's own country and is targetable iff not eliminated and not the player |
| BattleMap.ParticipantCountriesKeepKnown | src/components/BattleMap.tsx:47-60 | the entries are exactly the participants with a known country, in order |
| BattleMap.ClickedParticipant | src/components/BattleMap.tsx:69-77 | a click resolves to the first participant with that player id, otherwise to the first with that country id, and to nothing iff neither matches |
| BattleMap.CountrySelect | src/components/BattleMap.tsx:63-91 | a target is selected only in target mode on the player's turn, and iff the clicked participant is targetable; the selection is its player id |
| BattleMap.EliminatedFirstOfCountryBlocksClick | src/components/BattleMap.tsx:63-91 | a click on a country whose first participant is eliminated selects nothing, even when a later participant of that country could be targeted |
| BattleMap.CountrySelectPicksAvailableTarget | src/components/BattleMap.tsx:80-90 | whatever the map selects is one of the arena's available targets |
| BattleMap.ForwardedClickSelects | src/components/BattleMap.tsx:193 | a marker click forwarded by the map in select mode selects exactly that participant when it is targetable |
| BattleMap.SelectedCountry | src/components/BattleMap.tsx:195 | a country is highlighted iff a target is selected and some participant has that player id; it is the country of the first such participant |
| BattleMap.SelectionIsHighlighted | src/components/BattleMap.tsx:195 | with distinct player ids, a target picked by a map click (`handleCountrySelect`, lines 63-91) makes the map highlight the clicked participant's country (nothing for an empty player id) |
| BattleMap.LatestAttackExists | src/components/BattleMap.tsx:98-104 | a latest attack exists iff some turn is an attack that dealt damage to a target |
| BattleMap.LatestAttackIsLatest | src/components/BattleMap.tsx:98-104 | the latest attack is such a turn, no such turn ended later, and among equal end times it is the first in turn order |
| BattleMap.AttackAnimation.constructor | src/components/BattleMap.tsx:43-44 | no attack animation at first |
| BattleMap.AttackAnimation.OnTurnsChanged | src/components/BattleMap.tsx:94-129 | with no attack the animation is cleared; the same attack id keeps the state; a new one is stored with a fresh key "id-turn-now" |
| BattleTurnPanel.TargetsByCountry | src/components/BattleTurnPanel.tsx:65-75 | the groups are keyed by country name, or "Unknown", in order of first appearance, each holding exactly that name's targets in order |
| BattleTurnPanel.TargetsByCountryPlacesEachOnce | src/components/BattleTurnPanel.tsx:65-75 | every target lies in its own name's group and no other, and the groups together are the targets |
| BattleTurnPanel.CivilForeignPartition | src/components/BattleTurnPanel.tsx:77-79 | civil-war and foreign targets are disjoint, together are all targets, and each keeps the original order |
| BattleTurnPanel.ForeignTargetHidden | src/components/BattleTurnPanel.tsx:295-299 | a foreign target listed under the same name as an own-country target is shown in neither section |
| BattleTurnPanel.ForeignTargetHiddenExample | src/components/BattleTurnPanel.tsx:295-299 | two targets without a country name, one from the player's country, hide the foreign one |
| BattleTurnPanel.ForeignSectionShowsEveryForeignTarget | src/components/BattleTurnPanel.tsx:285-299 | grouped from the foreign targets alone, the foreign section lists every foreign target once, and both sections together cover every target once |
| BattleTurnPanel.WeaponDisabledMatchesArena | src/components/BattleTurnPanel.tsx:419-427 | a weapon button is disabled iff the weapon is unavailable or costs more rockets than the player has, exactly the arena's rule negated, and always without equipment |
| BattleTurnPanel.DamageTable | src/components/BattleTurnPanel.tsx:112-140 | the preview table has an entry for each weapon and for nothing else |
| BattleTurnPanel.DamageTableLookup | src/components/BattleTurnPanel.tsx:112-140 | the table's entry for a weapon is that weapon's preview |
| BattleTurnPanel.DamagePreviewFallbacks | src/components/BattleTurnPanel.tsx:112-144 | without a player every weapon previews its base damage with no bonus, and an unknown weapon previews zeros |
| BattleTurnPanel.TurnPanelState.constructor | src/components/BattleTurnPanel.tsx:56 | no weapon is selected at first |
| BattleTurnPanel.TurnPanelState.HandleWeaponSelect | src/components/BattleTurnPanel.tsx:146-154 | without a target nothing happens; otherwise the weapon is selected, the optional target-mode callback (if passed) gets false, and the attack goes to that target with that weapon |
| BattleHUD.ActiveCountComplement | src/components/BattleHUD.tsx:86-88 | active plus eliminated participants are all of them, and all are active iff none is eliminated |
| BattleHUD.PositionMeaning | src/components/BattleHUD.tsx:143 | the position is 0 iff the player is eliminated or absent, and otherwise is 1 + their first index among the active participants |
| BattleHUD.TimerColorBands | src/components/BattleHUD.tsx:148-151 | the timer colour only worsens as time runs out, and the auto-pass warning only shows while it is red |
| BattleHUD.AtMostOneActiveTurn | src/components/BattleHUD.tsx:221 | with distinct player ids, at most one participant carries the ACTIVE tag, and that one is not eliminated |
| BattleHUD.TurnMessageOf | src/components/BattleHUD.tsx:285-292 | "Your turn" iff it is the player's turn; otherwise "waiting for more players" iff the battle is waiting; otherwise the name of the first participant holding the turn with `formatTime` of the time left (the `find` of line 60), and "Loading" iff no participant holds the turn |
| BattleHUD.TurnMessageNamesActiveCommander | src/components/BattleHUD.tsx:285-292 | with distinct player ids, the line waits for the commander carrying the ACTIVE tag of line 221, and no commander carries it while the line says "Loading" |
| BattleHUD.StatusLabelKeepsLaterUnderscore | src/components/BattleHUD.tsx:103 | the label as written turns only the first underscore into a space |
| BattleHUD.WaitingLabelKeepsUnderscore | src/components/BattleHUD.tsx:103 | for waiting_for_players the written label keeps the second underscore, and the corrected label does not |
| BattleHUD.StatusLabelHasNoUnderscore | src/components/BattleHUD.tsx:103 | the corrected label has the status's length, no underscore, and a space exactly where the status had an underscore |
| BattleChat.AllMessagesIsSortedMerge | src/components/BattleChat.tsx:88-95 | the log holds every turn and chat line exactly as often as given, and nothing else, in non-decreasing time order |
| BattleChat.RenderedAreLatest | src/components/BattleChat.tsx:107 | at most 50 entries are drawn, all of them when there are no more, still in time order, and none is older than any entry left out |
| BattleChat.RoundIsNearest | src/components/BattleChat.tsx:75 | the rounded damage is within half of the exact value |
| BattleChat.TurnMessageKinds | src/components/BattleChat.tsx:72-86 | an attack reads "attacked with ", the weapon, " dealing ", a number that reads back as the rounded damage, and " damage"; defend, pass and special_ability have their fixed texts; any other action type, including deploy_defense, reads "performed an action" |
| BattleChat.ChatState.constructor | src/components/BattleChat.tsx:27-28 | empty input and no chat lines |
| BattleChat.ChatState.SetMessage | src/components/BattleChat.tsx:148-153 | typing changes only the input, which holds at most 200 UTF-16 code units |
| BattleChat.ChatState.HandleSendMessage | src/components/BattleChat.tsx:39-55 | a blank message or a missing player changes nothing; otherwise exactly one line with the trimmed text, the player's id and name is appended and the input is cleared |
| BattleChat.SentMessageJoinsTimeline | src/components/BattleChat.tsx:53-95 | a sent line adds exactly one entry to the log |
| HomePage.CheckEnlistment | src/components/HomePage.tsx:212-226 | enlisting is accepted iff a country is chosen and the trimmed name is 3 to 20 UTF-16 code units long, with the trimmed name; a missing country or blank name gives the first error, and a name under 3 units the second |
| HomePage.TwoEmojiNameIsAccepted | src/components/HomePage.tsx:218-226 | a name of two emoji is 4 code units long in JavaScript and is accepted |
| HomePage.EnabledDeployIsAccepted | src/components/HomePage.tsx:647-658 | whenever the Deploy button is enabled for a chosen country and the field holds at most 20 code units, the handler accepts the name |
| HomePage.HomeState.constructor | src/components/HomePage.tsx:46-50 | nothing chosen, no dialog open, not creating |
| HomePage.HomeState.HandleCountrySelect | src/components/HomePage.tsx:206-210 | the country is recorded, the selector closes and the confirmation opens |
| HomePage.HomeState.HandleEnterBattlefield | src/components/HomePage.tsx:249-253 | the selector opens only for a connected wallet |
| HomePage.HomeState.HandleCreatePlayer | src/components/HomePage.tsx:212-247 | a refused enlistment changes nothing; an accepted one calls with the country and trimmed name, is busy during the call and not after, closes the confirmation and goes home only on success |
| ArsenalPage.TypedQuantity | src/components/ArsenalPage.tsx:348 | a typed quantity is the parsed number when it is at least 1, and 1 otherwise |
| ArsenalPage.AfterPurchase | src/components/ArsenalPage.tsx:87-89 | a purchase adds the quantity to exactly one of rockets or defence systems and writes no other field |
| ArsenalPage.ArsenalState.constructor | src/components/ArsenalPage.tsx:46-48 | both quantities start at 1, nothing is being purchased |
| ArsenalPage.ArsenalState.SetQuantity | src/components/ArsenalPage.tsx:98 | sets one item's quantity and leaves the other alone |
| ArsenalPage.ArsenalState.Decrement | src/components/ArsenalPage.tsx:337 | decrementing never goes below 1 and touches only that item |
| ArsenalPage.ArsenalState.Increment | src/components/ArsenalPage.tsx:353 | incrementing adds one to that item only |
| ArsenalPage.ArsenalState.Type | src/components/ArsenalPage.tsx:348 | typing stores the clamped quantity, which stays at least 1 |
| ArsenalPage.ArsenalState.HandlePurchase | src/components/ArsenalPage.tsx:60-106 | without player, equipment or wallet, or with too few tokens, nothing happens; otherwise the requested burn is quantity × price, the count is written only once the burn is sent and confirmed, the busy flag is cleared afterwards, and the quantity resets to 1 only after full success; for an item not being bought, the burn is requested iff player, equipment and wallet are present and the purchase button (lines 386 and 497) is enabled |
| PvPBattlePage.ScreenOf | src/components/PvPBattlePage.tsx:186-212 | loading wins; the arena shows iff the view is battle and a non-empty id is selected; the active-battle card iff there is one in the lobby view |
| PvPBattlePage.CreatorButtons | src/components/PvPBattlePage.tsx:284-315 | Start Now shows iff the arena would allow an early start; it never shows with "Need 1 More Player"; Cancel shows iff one of them does; a battle known only by id shows none |
| PvPBattlePage.PrizeSumAppend | src/components/PvPBattlePage.tsx:405 | the prize sum of two lists is the sum of their sums |
| PvPBattlePage.PrizeSumBounds | src/components/PvPBattlePage.tsx:405 | with non-negative pools the sum is non-negative and at least each pool |
| PvPBattlePage.ActivePrizePools | src/components/PvPBattlePage.tsx:405 | the loop's total is the prize sum of the active battles |
| PvPBattlePage.RoundedMean | src/components/PvPBattlePage.tsx:415-417 | the rounded mean is within half a unit of the exact mean |
| PvPBattlePage.AverageDuration | src/components/PvPBattlePage.tsx:414-417 | 0 with no history, otherwise the rounded mean of the durations, a missing one counting 0 |
| PvPBattlePage.PageState.constructor | src/components/PvPBattlePage.tsx:33-37 | lobby view, nothing selected, no active battle, the check pending |
| PvPBattlePage.PageState.CheckActiveBattle | src/components/PvPBattlePage.tsx:53-80 | the check always ends; a found battle is selected and opened; none found clears the active battle; no player or a failed lookup changes nothing else |
| PvPBattlePage.PageState.EnterBattle | src/components/PvPBattlePage.tsx:112-117 | the battle is selected, the battle view opens and it becomes the active battle |
| PvPBattlePage.PageState.HandleCreateBattle | src/components/PvPBattlePage.tsx:83-102 | only with a player and a created id: the new battle is opened and the modal closes; otherwise nothing changes |
| PvPBattlePage.PageState.HandleEnter | src/components/PvPBattlePage.tsx:104-122 | a join, start or rejoin opens the battle only when its player guard passes and the call succeeds; otherwise nothing changes |
| PvPBattlePage.PageState.LeaveBattle | src/components/PvPBattlePage.tsx:132-134 | back to the lobby with no selection and no active battle |
| PvPBattlePage.PageState.HandleCancelBattle | src/components/PvPBattlePage.tsx:124-140 | a successful cancel with a player returns to the lobby and clears selection and active battle; otherwise nothing changes |
| PvPBattlePage.PageState.HandleBackToLobby | src/components/PvPBattlePage.tsx:179-184 | returns to the lobby and clears selection and active battle |
| PvPBattlePage.PageState.HandleEnterFromCard | src/components/PvPBattlePage.tsx:272-276 | opens the active battle's id in the battle view and keeps the active battle |
| PvPBattlePage.PageState.OpenCreateModal | src/components/PvPBattlePage.tsx:424-426 | the modal opens only for a connected wallet with a player |
| PvPBattlePage.ScreenAfterNavigation | src/components/PvPBattlePage.tsx:200-209 | after entering a battle with a non-empty id the arena shows, and after leaving the lobby lists show |
| PvPBattlePage.EmptyIdShowsLists | src/components/PvPBattlePage.tsx:200-212 | a battle view whose selected id is empty falls through to the lists |
| Navigation.FormatAddressShape | src/components/Navigation.tsx:78-80 | an address of at least 8 characters shortens to 11: its first four, "...", its last four; a short one appears whole on both sides |
| Navigation.FilterFive | src/components/Navigation.tsx:128-132 | filtering five entries keeps each one that passes, in order |
| Navigation.VisibleNavItemsExactly | src/components/Navigation.tsx:94-132 | Home, Battle Arena and Docs always; Arsenal iff there is a player; Admin iff a dev wallet is connected; in the declared order |
| Navigation.EnterWarReplacesArsenal | src/components/Navigation.tsx:184 | Enter War and the Arsenal link never show together, and for a connected wallet exactly one of them does |
| LeafletWorldMap.CurrentLayer | src/components/LeafletWorldMap.tsx:671 | a known layer id gives its layer and an unknown one the dark layer |
| LeafletWorldMap.OnlySatelliteHasOverlay | src/components/LeafletWorldMap.tsx:753-759 | the 30 %-opacity darkening tile is drawn exactly when the satellite layer is chosen |
| LeafletWorldMap.ParticipantsByCountry | src/components/LeafletWorldMap.tsx:674-685 | no battle data gives no groups; otherwise one group per country id, in order of first appearance, each holding exactly that country's participants in order |
| LeafletWorldMap.ParticipantsByCountryPartition | src/components/LeafletWorldMap.tsx:674-685 | every participant lies in its country's group and no other, and the groups together are the participants |
| LeafletWorldMap.PlayerPosition | src/components/LeafletWorldMap.tsx:117-118 | a lone player in a country sits on its base coordinates |
| LeafletWorldMap.GroupMarkers | src/components/LeafletWorldMap.tsx:765-794 | a placeable country gets one marker per participant in order, and an unknown or unplaced one gets none |
| LeafletWorldMap.MarkersFromGroups | src/components/LeafletWorldMap.tsx:765-794 | a participant has a marker iff its country is among the groups and can be placed |
| LeafletWorldMap.GroupHasMarker | src/components/LeafletWorldMap.tsx:772-789 | a group's markers belong exactly to its members, when the country can be placed |
| LeafletWorldMap.MarkerShownExactly | src/components/LeafletWorldMap.tsx:765-794 | a participant gets a marker iff its country is known and has coordinates |
| LeafletWorldMap.MarkerCanTarget | src/components/LeafletWorldMap.tsx:785 | a marker is targetable iff its participant is neither eliminated nor the current player |
| LeafletWorldMap.PlayerClick | src/components/LeafletWorldMap.tsx:630-640 | a click forwards the player id iff in select mode with target mode on |
| LeafletWorldMap.HoverState.constructor | src/components/LeafletWorldMap.tsx:625 | nothing hovered at first |
| LeafletWorldMap.HoverState.MouseEnter | src/components/LeafletWorldMap.tsx:643-648 | hovering records the participant only in view mode outside target mode, where the marker has hover handlers at all |
| LeafletWorldMap.HoverState.MouseLeave | src/components/LeafletWorldMap.tsx:650-654 | leaving clears the hover only in view mode outside target mode |
| CountrySelector.SortedCountriesOrder | src/components/CountrySelector.tsx:45 | the sorted list is a permutation of the countries in non-increasing military strength |
| CountrySelector.RankBadge | src/components/CountrySelector.tsx:63-70 | only the first three get a badge: gold with a crown, silver "#2", bronze "#3" |
| CountrySelector.SelectedCountryData | src/components/CountrySelector.tsx:46 | nothing when no country is selected or none has that id; otherwise the first country with that id |
| Text.TrimSpec | src/components/HomePage.tsx:213 | `trim` removes exactly the leading and trailing JavaScript whitespace |
| Seqs.SortBy | src/components/BattleChat.tsx:95 | `sort` by a numeric key returns a permutation in non-decreasing key order |
| Seqs.GroupBy | src/components/LeafletWorldMap.tsx:677-684 | the grouping loop builds, for each key in order of first appearance, exactly the elements with that key in order |

## Left out

- SPL token CPIs, PDA seeds and bumps, signer seeds, Anchor account validation and `InitSpace` sizing are not modelled. Token accounts are a balance map, and a transaction is all-or-nothing.
- The escrow's u64 and u8 overflow is a precondition (`JoinFits`, `PayoutFits`) rather than a modelled panic. Whether it panics depends on a build profile that is not part of this model.
- `BattleEscrow.Transfer`: the SPL program's own checks (mint, delegate, frozen accounts) are not modelled; a transfer only needs the balance.
- Supabase queries and realtime channels, wallet adapters, clipboard, toasts, console logging, `setTimeout`/`setInterval` refreshes and auto-scrolling are not modelled. Awaited calls are parameters that succeed or fail.
- Code outside the thirteen components becomes parameters: the rank system, `getAvailableWeapons`, `canDeployDefenseSystem`, `getDefenseSystemPreview`, `isDevWallet`, `createTokenBurnTransaction`, the token prices, `useCountries` and the hooks. The damage and combat rules in `src/lib` are not part of this model.
- Floating-point display maths is not modelled: health colour bands, the rank-bonus damage, `toLocaleString`/`toFixed`, burn percentages and the trigonometric marker circle. `PlayerPosition` takes the ring placement as a parameter.
- `CreateBattleModal.DevFeeIsIntegerDivision`: `Math.floor(pool * 0.05)` is modelled with exact real arithmetic, as `((pool as real) * 0.05).Floor`, and the lemma proves that equals `pool * 5 / 100`. Binary floating-point rounding of `0.05` is not modelled.
- Dates: timestamps and `now` are already-parsed integer milliseconds, and `new Date` parsing is not modelled. A chat line's id and time are both the `now` parameter.
- `Seqs.SortBy`: JavaScript's `sort` is stable since ES2019, and the model's insertion sort is stable too. Stability is proved only for the first element (`Seqs.SortHead`), not for the whole order.
- `PvPBattlePage.PrizeSum`: `total_prize_pool` is an integer, so the `|| 0` fallback for a null or NaN pool is not modelled; for a pool of 0 it gives 0 either way.
- Object key order: the `reduce` groupings assume insertion order. JavaScript lists integer-like keys first, and country names or ids that look like integers are not modelled.
- `PvPBattleList.BattleStatusColors`: each colour is a `Tint` value standing for its three Tailwind classes. The class strings themselves are not modelled.
- `BattleHUD.ToUpper`: upper-casing covers ASCII letters only, so non-ASCII case mapping is not modelled.
- The HUD's crown on the first commander and its "YOU" tag are not modelled; they only decorate the list.
- `handleJoinWar` in the navigation bar is not modelled: it navigates home, closes menus and dispatches a DOM event after a timer. Also not modelled: the wallet dropdown, copying the address and disconnecting.
- `PvPBattlePage.PageState.CheckActiveBattle`: the effect's re-run on a change of player id is not modelled. It is a single call.
- The BattleMap and BattleHUD copies of `formatTime` are the same code as BattleArena's and use `BattleArena.FormatTime`.

## Findings

| source | as written | input that shows it | evidently intended | confidence | as-written member | corrected member |
|---|---|---|---|---|---|---|
| src/components/BattleTurnPanel.tsx:295-299 | the foreign section walks the groups of all targets by country name and skips any group containing an own-country target | an own-country target and a foreign target that both have an empty country name (both grouped as "Unknown") | every foreign target is listed in the foreign section | not executed | BattleTurnPanel.ForeignTargetHidden | BattleTurnPanel.ForeignSectionShowsEveryForeignTarget |
| src/components/BattleHUD.tsx:103 | `replace('_', ' ')` replaces only the first underscore | status `waiting_for_players` is shown as "WAITING FOR_PLAYERS" (the same expression is at src/components/PvPBattlePage.tsx:255) | every underscore becomes a space | not executed | BattleHUD.WaitingLabelKeepsUnderscore | BattleHUD.StatusLabelHasNoUnderscore |
