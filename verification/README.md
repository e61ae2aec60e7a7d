# Wagered games of the team roulette client, in Dafny

The client is a React app backed by a PocketBase store. Players hold points
and wager them against each other in three games:

- **Rock-paper-scissors duels.** Each side makes a blind choice, and the
  second choice decides the duel.
- **Chess.** The chess engine judges legality and game over.
- **Tic-tac-toe.**

A finished game moves the stake from the loser to the winner. It also advances
the winner's daily quest. Realtime subscriptions keep the lists of challenges,
running games and finished games up to date. The views show the board, whose
turn it is and the result.

This project models the client's logic as pure functions over immutable
datatypes:

- **Each handler** takes the relevant store rows and returns the update it
  writes plus the balances after the settlement.
- **Each remote request** is represented by a boolean that says whether it
  went through.
- **The chess engine** is an oracle. Its answers (side to move, whether the
  move was legal, checkmate, game over) are inputs.
- **Each view component** is a function from the record to what it displays:
  status line, enabled cells, highlighted card, result colour, sorted list.

The modules follow the source:

- **Common, Sorting:** shared vocabulary, and `Array.prototype.sort` modelled
  as a sorted permutation.
- **Ledger:** points and stake settlement.
- **Game:** the challenge lifecycle shared by chess and tic-tac-toe.
- **Duel, Chess, Tictactoe:** the three move handlers.
- **Sync:** baseline fetch and realtime handlers.
- **Startup:** the baseline load as a whole, with its failure path.
- **Reconnect, Quests, Poke, Errors:** the remaining handlers of `src/App.tsx`.
- **Roulette:** the win bookkeeping of the root `App.tsx`.
- **ChessView, DuelView, DuelHistoryItem, TictactoeView, ProfileCard,
  ProfileView, RewardsView:** the components.

## Model

| member | source | states |
|---|---|---|
| Common.Filter | components/ProfileCard.tsx:13 | The filtered list holds exactly the entries of the input that satisfy the predicate, and is no longer. |
| Common.FilterFacts | src/App.tsx:343 | Filtering keeps unique ids unique, and a filter every entry passes returns the list unchanged. |
| Common.Without | src/App.tsx:400 | Removing an id keeps exactly the entries with a different id. |
| Common.WithoutFacts | src/App.tsx:445 | After removing an id, no entry carries it, ids stay unique, and removing an absent id changes nothing. |
| Common.ReplaceByKey | App.tsx:196 | Each entry with the record's id is replaced by the record, every other entry is kept, and positions are unchanged. |
| Common.Upsert | src/App.tsx:439-442 | The merged ongoing list contains the game and every other game, nothing else, and keeps ids unique. A known id is replaced in place; a new one is appended. |
| Sorting.Insert | src/App.tsx:412 | Inserting into a sorted list gives a sorted list with the same entries plus the new one. |
| Sorting.Sort | src/App.tsx:412 | A sort returns a permutation of its input that is ordered by the comparator. |
| Sorting.SortKeepsMembers | src/App.tsx:461 | An entry is in the sorted list if and only if it is in the input. |
| Sorting.SortSameMembers | src/App.tsx:512 | Sorting neither adds nor drops an entry. |
| Sorting.InsertKeepsKeysUnique | src/App.tsx:412 | Inserting an entry whose id is new keeps ids unique. |
| Sorting.SortKeepsKeysUnique | src/App.tsx:412 | Sorting a list with unique ids keeps them unique. |
| Ledger.Adjust | src/App.tsx:692-693 | A relative points write changes only the target's balance, and by exactly the delta when it lands. A failed write, or a write to an unknown user, changes nothing. |
| Ledger.Settle | src/App.tsx:686-698 | A settlement moves the stake from loser to winner and touches no one else. When both writes land, the pair's total is unchanged. When neither lands, nothing changes. |
| Ledger.SettleIfAny | src/App.tsx:814-828 | A draw touches no balance; a decided game settles its transfer. |
| Ledger.PartialSettlementShiftsTotal | src/App.tsx:938-947 | When exactly one of the two writes lands, the pair's total moves by the stake: points are created or destroyed. |
| Game.Initiate | src/App.tsx:718-741 | A challenge is created if and only if both players hold the cost, the challenger confirmed, and the create went through. The new row is pending, with the challenger first and the cost as stake. |
| Game.AcceptStatus | src/App.tsx:743-759 | An accepting player without enough points writes declined; one with enough writes ongoing. |
| Game.Accept | src/App.tsx:876-892 | A successful accept writes exactly the status AcceptStatus gives, and no other field. A failed write changes nothing. |
| Game.Decline | src/App.tsx:761-764 | Declining writes declined and nothing else. |
| Game.AcceptWithoutFundsDeclines | src/App.tsx:744-747 | A player with 4 points accepting a 5-point challenge declines it. |
| Duel.BeatsIsThreeCycle | src/App.tsx:30-34 | The beats relation is a 3-cycle: no choice beats itself, and of two distinct choices exactly one beats the other. |
| Duel.Beats | src/App.tsx:30-34 | No choice beats itself. |
| Duel.ApplyPayload | src/App.tsx:705 | The merged duel takes the mover's choice and the status, and the winner when the payload carries one. The players, the stake and the other choice are kept. |
| Duel.Resolve | src/App.tsx:673-682 | The duel is a draw if and only if the picks are equal. The mover wins if and only if their pick beats the other. The other wins if and only if theirs beats the mover's. |
| Duel.ResolveIsAntisymmetric | src/App.tsx:676-681 | Swapping the two picks swaps winner and loser and keeps a draw a draw. |
| Duel.PlanChoice | src/App.tsx:657-702 | The mover's own choice key is always written. A first choice writes the matching "chose" status and no winner. A second choice completes the duel with the decided winner. The stake is settled exactly when the winner id is non-empty, so a draw or a win by an empty relation moves no points. |
| Duel.HandleChoice | src/App.tsx:654-714 | Balances are settled per the plan whatever happens to the duel write. A stored choice leaves a chosen or completed status. The quest fires exactly when the write lands on a completed duel won by the mover. |
| Duel.ChoiceWritesOnlyOwnKey | src/App.tsx:665-667 | A choice never overwrites the other participant's choice, the players or the stake. |
| Duel.ResolutionIndependentOfOrder | src/App.tsx:669-702 | Whichever participant chooses first, two choices complete the duel with the same winner. When both ids are non-empty, the second choice settles exactly when the picks differ. |
| Duel.RockBeatsScissorsExample | src/App.tsx:686-694 | Between two players with non-empty ids, rock against scissors at stake 10 gives the challenger 10 and takes 10 from the opponent. |
| Duel.EmptyWinnerIsNotSettled | src/App.tsx:683-698 | A duel won by an empty opponent id records that winner but moves no points. |
| Duel.SettlementPrecedesDuelWrite | src/App.tsx:690-705 | When the balance writes land and the duel write fails, points have moved while the duel is still unfinished. |
| Chess.PlayerColor | components/ChessView.tsx:150 | A player is white exactly when listed as white. |
| Chess.PlanChessMove | src/App.tsx:766-829 | Without the engine, off turn, or on an illegal move, nothing is written, each case with its own error. A legal move writes the engine's position. Game over completes the game. A mate names the player whose side is not to move afterwards, and settles 25 points only when that id is non-empty. Any other game over names no winner. |
| Chess.HandleChessMove | src/App.tsx:766-839 | A refused move changes nothing. Otherwise the settlement is applied before the game write, and the quest fires only when the settlement landed and the mover won. |
| Chess.ApplyChess | src/App.tsx:833 | The merged game takes the position, turn and move list, and the status and winner when the payload carries them. The players, stake and creation time are kept. |
| Chess.CheckmateWinnerIsTheMover | src/App.tsx:806-808 | A mate reported after the mover's move names the mover as winner, with the other player paying the stake. |
| Chess.OtherGameOverIsDraw | src/App.tsx:801-811 | A game over that is not a mate completes the game with no winner and moves no points. |
| Chess.StatusIsNotConsulted | src/App.tsx:766-791 | The move plan does not depend on the stored status. |
| Chess.PendingGameTakesAMove | src/App.tsx:766-833 | A game that is still pending accepts white's legal opening move. |
| Chess.InitiateChess | src/App.tsx:718-734 | A chess challenge needs 25 points from each player. It starts from the standard position with white to move and an empty move record. |
| Tictactoe.ScanLines | src/App.tsx:901-906 | The scan from a line on finds nothing if and only if every remaining line is open. Otherwise it returns the mark of the first full line. |
| Tictactoe.CheckWinner | src/App.tsx:899-908 | The checker returns none if and only if no line holds three equal marks. Otherwise it returns the mark of the first such line in scanning order. |
| Tictactoe.PlanMove | src/App.tsx:913-949 | A move is planned if and only if the game is ongoing, it is the mover's mark's turn and the cell is empty. The plan places the mark and passes the turn. A line or a full board completes the game, and only a line names a winner and moves the stake. |
| Tictactoe.HandleMove | src/App.tsx:910-956 | A refused move changes nothing. A landed write stores the plan. The quest fires if and only if the move is allowed, ends the game with the mover as winner, and both settlement writes land. When it fires, points have moved. |
| Tictactoe.ApplyTtt | src/App.tsx:952 | The merged game takes the board and turn, and the status and winner when the payload carries them. The players, stake and creation time are kept. |
| Tictactoe.MoveAllowed | src/App.tsx:914-916 | A move is allowed only on an empty cell of an ongoing game, when the turn is x exactly if the mover is the challenger. |
| Tictactoe.LineOfOtherMarkWasThere | src/App.tsx:921-923 | Placing one mark cannot complete a line of the other mark. |
| Tictactoe.OnlyNewLinesWin | src/App.tsx:923 | On a board nobody had won, the checker can only report the mark just placed. |
| Tictactoe.WinnerIsTheMover | src/App.tsx:931-936 | On a board nobody had won, a winning move names the mover as winner and the other player as loser. |
| Tictactoe.SettlementAtMostOnce | src/App.tsx:916 | Once a move completes the game, every later move is refused, so the stake is settled at most once. |
| Tictactoe.TopRowExample | src/App.tsx:900-904 | A board with x across the top row is won by x. |
| Tictactoe.CountAfterPlacing | src/App.tsx:922 | Filling an empty cell adds one mark of its kind and leaves the other kind's count alone. |
| Tictactoe.CountEmpty | src/App.tsx:865 | An empty board holds no marks. |
| Tictactoe.InitialPlay | src/App.tsx:865-866 | The initial board is nine empty cells with x to move, which satisfies the alternation invariant. |
| Tictactoe.MovePreservesAlternation | src/App.tsx:921-929 | Every accepted move keeps the invariant: x has as many marks as o, or one more, matching whose turn it is. |
| Tictactoe.InitiateTictactoe | src/App.tsx:852-874 | A tic-tac-toe challenge needs 5 points from each player. It starts on an empty board with x to move. |
| Sync.MergeHistory | src/App.tsx:412 | The merged history holds the fetched row and every earlier row with another id, nothing else. It is newest first, with ids unique when they were. |
| Sync.MergeHistoryFacts | src/App.tsx:461 | Sorting the merged list keeps its members and its unique ids. |
| Sync.GameOrder | src/App.tsx:461 | Newest first is a total preorder. |
| Sync.EventKeepsIdsUnique | src/App.tsx:426-525 | Update and delete events keep each list free of duplicate ids, and so does a create of a challenge not yet listed. |
| Sync.UpdateFilesByStatus | src/App.tsx:436-464 | After an update, the game is in the ongoing list exactly when its status is ongoing, and leaves the pending list once it is no longer pending. Other running games stay, and a finished game is filed into history. |
| Sync.DeleteClearsEverywhere | src/App.tsx:465-473 | A delete removes the game from both live lists and from the screen, and leaves history alone. |
| Sync.OthersEventsIgnored | src/App.tsx:428-430 | Events about games the player is not in change nothing. |
| Sync.OnGameEvent | src/App.tsx:426-525 | Events about games the player is not in change nothing. A create leaves the running games, history and the open game alone, a delete leaves history alone, and an event about another game leaves the open game alone. |
| Sync.BaselineGames | src/App.tsx:328-347 | The baseline holds incoming challenges addressed to the player, the player's running games, and the player's completed games newest first. |
| Sync.HistoryDependsOnPath | src/App.tsx:458-461 | A declined game enters history through an update event but is absent from the baseline history. |
| Sync.DuelEventEffects | src/App.tsx:389-424 | A challenge to the player is prepended, a duel that is no longer pending leaves the pending list, and a finished one is filed into history. A delete closes the duel on screen. An update refreshes the duel on screen, falling back to the event's record. |
| Sync.OnDuelEvent | src/App.tsx:389-424 | Events about duels the player is not in change nothing. A create leaves history and the open duel alone, a delete leaves history alone, and an event about another duel leaves the open duel alone. |
| Sync.BaselineDuels | src/App.tsx:326-341 | The baseline duel history holds the player's duels that are neither pending nor accepted, and the pending list holds the challenges addressed to the player. Both lists are newest first. |
| Sync.RejoinDuel | src/App.tsx:359-366 | The rejoin lookup finds a duel if and only if one is rejoinable: a challenge the player sent, or one of their accepted or half-chosen duels. |
| Sync.SentChallengeIsRejoined | src/App.tsx:327-362 | A challenge the player sent is not in their pending list but is found by the rejoin lookup. |
| Startup.Emptied | src/App.tsx:374 | An emptied game list has no pending, running or finished games and keeps the game open on screen. |
| Startup.Loaded | src/App.tsx:320-369 | After a successful load each list holds the matching rows of its collection, the errors are untouched, and the rejoin lookup decides the duel on screen when it finds one. |
| Startup.LoadAsWritten | src/App.tsx:320-375 | A failed load adds the load-failure report and empties the duel and chess lists but leaves the tic-tac-toe lists as they were. |
| Startup.Load | src/App.tsx:320-375 | The corrected load: a failure empties every list it would have filled, keeps the games open on screen, and appends exactly one non-empty report. |
| Startup.AsWrittenDiffersOnlyInTictactoe | src/App.tsx:371-375 | The two loads differ only in the tic-tac-toe lists of a failed load. They agree if and only if the load succeeded or those lists were already empty. |
| Startup.StaleChallengeAfterFailedLoad | src/App.tsx:371-375 | A pending tic-tac-toe challenge survives a failed load as written, next to an emptied chess list. The corrected load drops it. |
| Startup.ReloadRecovers | src/App.tsx:320-375 | A successful load after a failed one leaves the same lists as a successful load from the start, for both versions. |
| Reconnect.PollAsWritten | src/App.tsx:221-243 | A first id is stored without a refresh. A changed id is stored with one refresh. An empty id clears the stored one. An unchanged id changes nothing. |
| Reconnect.PollAsWrittenCountsAtMostOne | src/App.tsx:232-236 | A poll raises the counter by at most one, exactly when a stored id changes to another non-empty one. |
| Reconnect.ReconnectAfterSeenDisconnectIsMissed | src/App.tsx:239-242 | Connected as "a", then seen disconnected, then back as "b": the counter never rises. |
| Reconnect.Poll | src/App.tsx:221-243 | The intended detector keeps the last id through a disconnect and refreshes on every change of non-empty id. |
| Reconnect.ReconnectAfterSeenDisconnectRefreshes | src/App.tsx:231-236 | With the intended detector, a new id after a seen disconnect triggers one refresh. |
| Reconnect.PollAgreesWhileConnected | src/App.tsx:225-236 | While an id is present, the intended detector and the written one agree. |
| Reconnect.Run | src/App.tsx:220-246 | Over a run of polls of the intended detector (`Reconnect.Poll`, not the detector as written), the counter never drops and rises by at most one per poll. |
| Reconnect.RunCountsEveryChange | src/App.tsx:220-246 | Over any run of polls, the intended detector counts exactly the changes of non-empty id, disconnections in between or not. |
| Quests.FindOpen | src/App.tsx:551 | The lookup finds the first quest of the type that is not completed, and finds none if and only if there is none. |
| Quests.Advanced | src/App.tsx:555-560 | Progress grows by the amount, and the quest is completed exactly when the target is reached. |
| Quests.UpdateProgress | src/App.tsx:550-576 | A write is issued if and only if an open quest of the type exists. The first such quest fixes the id and the new progress. Every entry sharing that id takes the new progress and completion flag and keeps its own other fields. A failed write sets every entry sharing the id back to the snapshot taken before. |
| Quests.SetProgress | src/App.tsx:559-561 | Entries with the id take the given progress and flag and keep their other fields. All other entries are unchanged. |
| Quests.ProgressRevertRestores | src/App.tsx:569-575 | With unique ids, a failed progress write leaves the list as it was. A landed one changes only the advanced quest. |
| Quests.DuplicateIdsDefeatRevert | src/App.tsx:559-574 | With two entries sharing an id, a landed write gives both the new progress and each keeps its own quest and claim flag. The revert overwrites the second entry with the first. |
| Quests.SetClaimed | src/App.tsx:974 | Marking claimed changes exactly the entries with the quest's id. |
| Quests.ClaimReward | src/App.tsx:968-998 | A claim of an unclaimable quest does nothing. Otherwise the quest is marked claimed and the wallet credited, both undone together when either write fails. |
| Quests.HalfClaimLosesReward | src/App.tsx:982-996 | When the quest write lands and the user write fails, the store says claimed but nothing was credited. The reverted client shows it unclaimed. |
| Quests.ClaimOnce | src/App.tsx:969 | After a successful claim, claiming the same quest again changes nothing. |
| Quests.ButtonLabel | components/QuestsView.tsx:144 | The label reads done for a claimed quest, take for a completed one, and in progress otherwise. |
| Quests.EnabledIffTakeLabel | components/QuestsView.tsx:111-144 | The button is enabled exactly when it reads take. |
| Quests.QuestOrder | components/QuestsView.tsx:92-96 | The quest comparator is a total preorder. |
| Quests.SortQuests | components/QuestsView.tsx:92-96 | The shown quests are a permutation of the list: unclaimed before claimed, and within each group completed before incomplete. |
| Quests.QuestOrderFacts | components/QuestsView.tsx:93-95 | In a sorted list, every pair satisfies the comparator. |
| Poke.PokeUser | src/App.tsx:620-646 | A poke without 5 points or without confirmation does nothing. Otherwise only the two players' balances can change. The local deduction of 5 and the quest stand exactly when both writes land. |
| Poke.PokeBurnsPoints | src/App.tsx:633-636 | A successful poke takes 5 from the poker and gives 1 to the target: 4 points leave the system. |
| Poke.HalfPokeDesyncs | src/App.tsx:640-645 | When the debit lands and the credit fails, the client shows the old balance while the store holds 5 less. |
| Errors.PocketbaseError | src/App.tsx:37-53 | The message is the nested data message if present, else the original error's message, else the top-level message, else the default. |
| Errors.PicksFirstOnOffer | src/App.tsx:38-52 | The helper returns the first non-empty message in order of specificity. |
| Errors.NeverEmpty | src/App.tsx:37 | With a non-empty default, the message is never empty. |
| Errors.DefaultMessage | src/App.tsx:37-53 | Without a default argument, the helper yields a non-empty message: the unknown-error text for a non-object, and otherwise one of the error's own messages or that text. |
| Roulette.Rewarded | App.tsx:242-252 | The winning author gains one win and one streak step, and holds LUCKY exactly when they held it before or the new streak is at least 3. No other field or achievement changes, and the list grows by at most LUCKY. |
| Roulette.AfterWin | App.tsx:241-257 | The author is rewarded, every other user with a streak has it reset, and the rest are untouched. |
| Roulette.FirstFailure | App.tsx:241-258 | The first user whose write fails is found, and every user before them had no failing write. |
| Roulette.HandleWin | App.tsx:229-259 | The history row is created exactly when its create lands, and carries the option's text, category and author and the time. If the create or the read of all users fails, no user is written. Otherwise users are updated in order up to the first failing write, and every later user is left untouched. |
| Roulette.RewardKeepsAchievementsUnique | App.tsx:244-247 | A win never lists an achievement twice. |
| Roulette.ThreeWinsEarnLucky | App.tsx:243-247 | From a broken streak, the third win in a row earns LUCKY and the first two do not. |
| Roulette.AddOption | App.tsx:211-224 | A created option is appended with the user as author. The idea count rises only when both writes land, and no other field of the user changes. |
| Roulette.OnOptionEvent | App.tsx:192-198 | A delete removes the id, a create appends, and an update replaces in place. |
| Roulette.OptionEventKeepsIdsUnique | App.tsx:194-196 | Deletes and updates keep option ids unique, and so do creates of new ids. |
| Roulette.MostWinsFirst | App.tsx:188 | Most wins first is a total preorder. |
| Roulette.OnUserEvent | App.tsx:185-190 | A delete removes the id. Other events replace it with the record, and the list ends up sorted by wins. |
| Roulette.UserEventFacts | App.tsx:187-188 | Every user event keeps ids unique and leaves the record's id in the list exactly when the event was not a delete. |
| Roulette.NewestWinFirst | App.tsx:201 | Newest first is a total preorder. |
| Roulette.OnHistoryEvent | App.tsx:200-202 | The history gains the record, and is newest first. |
| Roulette.HistoryOrderFacts | App.tsx:201 | In a sorted history, timestamps never increase. |
| ChessView.Name | components/ChessView.tsx:62 | A square's name is its file letter (`a` plus the file index) followed by its rank digit. |
| ChessView.ParseName | components/ChessView.tsx:62 | A string reads as a square exactly when it is a file letter `a` to `h` followed by a rank digit `1` to `8`. |
| ChessView.NameRoundTrip | components/ChessView.tsx:62 | Every square's name reads back as that square, and a name that reads as a square is that square's name. |
| ChessView.NameIsInjective | components/ChessView.tsx:62-66 | Two squares share a name exactly when they are the same square, so the selection and target tests pick out one square each. |
| ChessView.BoardRanks | components/ChessView.tsx:22-25 | The rows list eight rank numbers, each from 1 to 8. |
| ChessView.BoardFiles | components/ChessView.tsx:21-26 | The columns list eight file indices, each from 0 to 7. |
| ChessView.BoardOrientation | components/ChessView.tsx:21-26 | White reads the rank digits and file letters in the order the component lists them. Black reads both lists reversed. |
| ChessView.SquareAt | components/ChessView.tsx:60-62 | Each grid cell shows a square on the board. |
| ChessView.BlackSeesTheBoardTurned | components/ChessView.tsx:24-26 | White sees a1 at the bottom left, and black sees the same board turned half a circle. |
| ChessView.EverySquareDrawnOnce | components/ChessView.tsx:60-62 | In either orientation, every square is drawn in exactly one cell. |
| ChessView.ColourParity | components/ChessView.tsx:64 | The written colour test calls a square light exactly when its file index and rank differ in parity. The intended test calls it light exactly when they share a parity. |
| ChessView.CornerColoursAsWritten | components/ChessView.tsx:64 | As written, a1 is drawn light and h1 dark. |
| ChessView.StandardColouring | components/ChessView.tsx:64 | With the intended test, each player's bottom-right square is light and the bottom-left dark, and colours alternate between neighbours. |
| ChessView.AsWrittenIsInverted | components/ChessView.tsx:64 | The written test paints every square the opposite colour of the intended one. |
| ChessView.IsMyTurn | components/ChessView.tsx:150-151 | Without an engine it is never the player's turn. With one, it is their turn exactly when the engine's side is their colour. |
| ChessView.Click | components/ChessView.tsx:28-56 | Off turn, a click does nothing. Clicking a target of the selected piece emits that move with a queen promotion and clears the selection. Clicking one's own piece selects it with its engine targets. Anything else deselects. |
| ChessView.ClickKeepsAgreement | components/ChessView.tsx:34-55 | The selection stays in step with the engine. Every emitted move starts on one's own piece and ends on a square the engine offered for it. |
| ChessView.ReclickKeepsSelection | components/ChessView.tsx:46-50 | Clicking the selected piece again re-selects it instead of deselecting. |
| ChessView.EmittedMovePassesTurnCheck | components/ChessView.tsx:151 | A move the board emits passes the handler's turn check. It is either played or refused as illegal. |
| DuelView.MyChoice | components/DuelView.tsx:23 | The player's choice is the one stored under their own key. |
| DuelView.TheirChoice | components/DuelView.tsx:24 | The opponent's choice is the one stored under the other key. |
| DuelView.CardBorder | components/DuelView.tsx:26-29 | A card has a border only on a completed duel with a winner: green for the winner, red otherwise. |
| DuelView.CardsHighlightTheWinner | components/DuelView.tsx:26-29 | On a completed duel won by one of two players, exactly their card is green and the other red. |
| DuelView.ResultText | components/DuelView.tsx:31-40 | A result line is shown exactly for completed, declined and cancelled duels: a draw, a win or a loss from the player's view, or the refusal. |
| DuelView.Content | components/DuelView.tsx:42-111 | The panel: loading until the opponent is known, then waiting while pending, the result once finished, the choice buttons while the player has not chosen, and "choice made" after. |
| DuelView.CancelOnlyForPendingChallenger | components/DuelView.tsx:48 | The cancel button is offered exactly to the challenger of a pending duel. |
| DuelView.ExpiredDuelOffersChoices | components/DuelView.tsx:60-77 | An expired duel the player has not chosen in still shows choice buttons. |
| DuelView.StoredChoiceHidesButtons | components/DuelView.tsx:77 | Once a choice write lands, the player no longer sees choice buttons. |
| DuelView.DecisiveChoiceShowsResult | components/DuelView.tsx:37-39 | A winning second choice shows the mover a win and the other side a loss. |
| DuelHistoryItem.ShownOpponent | components/DuelHistoryItem.tsx:10-11 | The challenger sees the expanded opponent, and anyone else the expanded challenger. |
| DuelHistoryItem.ShownOpponentIsTheRival | components/DuelHistoryItem.tsx:10-11 | The user shown is the participant the move handler plays against. |
| DuelHistoryItem.Digits | components/DuelHistoryItem.tsx:24 | A natural number is written as decimal digits with a leading zero only for zero itself. |
| DuelHistoryItem.DigitsValue | components/DuelHistoryItem.tsx:24 | A string of decimal digits denotes a natural number; a single digit denotes its own value. |
| DuelHistoryItem.DigitsRoundTrip | components/DuelHistoryItem.tsx:24 | Reading the written digits back gives the number. |
| DuelHistoryItem.Decimal | components/DuelHistoryItem.tsx:24 | A stake is written in decimal, with a minus sign exactly when negative, followed by digits without a leading zero. |
| DuelHistoryItem.DecimalValue | components/DuelHistoryItem.tsx:24 | A signed decimal string reads as a number that is negative only under a minus sign. |
| DuelHistoryItem.DecimalRoundTrip | components/DuelHistoryItem.tsx:24 | Reading the written stake back gives the stake, so two different stakes are never written alike. |
| DuelHistoryItem.GetResult | components/DuelHistoryItem.tsx:13-29 | Declined and cancelled read gray, a draw amber, a win green with +stake and a loss red with -stake. Any other status reads unknown. |
| DuelHistoryItem.HistoryAgreesWithOpenView | components/DuelHistoryItem.tsx:19-28 | The history line and the open duel's result line agree on win, loss, draw and no result. |
| DuelHistoryItem.ExpiredReadsUnknown | components/DuelHistoryItem.tsx:27-28 | An expired duel reads as unknown. |
| TictactoeView.ViewSymbol | components/TictactoeView.tsx:24 | The view gives the player x exactly when they are listed as x, agreeing with the handler. |
| TictactoeView.OneCardHighlighted | components/TictactoeView.tsx:56-73 | While the game is ongoing exactly one card is highlighted, and it is the player's own exactly on their turn. Otherwise neither is. |
| TictactoeView.CellDisabled | components/TictactoeView.tsx:63 | A cell is clickable exactly on the player's turn when it is empty. |
| TictactoeView.EnabledCellIsAllowedMove | components/TictactoeView.tsx:63 | A cell is clickable exactly when the handler would accept the move there. |
| TictactoeView.NoSecondMoveInARow | components/TictactoeView.tsx:25 | After a move lands, every cell is disabled for the mover. |
| TictactoeView.StatusText | components/TictactoeView.tsx:27-37 | The status line for each status: waiting, draw, win or loss, declined, cancelled, and whose move. |
| TictactoeView.YourMoveIffClickable | components/TictactoeView.tsx:36-63 | On a board with an empty cell, "your move" shows exactly when that cell is clickable. |
| TictactoeView.WinningMoveShowsWin | components/TictactoeView.tsx:29-31 | A winning move on an unwon board shows the mover a win and the close button. |
| ProfileCard.Label | components/ProfileCard.tsx:19 | A category label is never empty, and an empty category reads as "разное". |
| ProfileCard.Labels | components/ProfileCard.tsx:18-19 | Each win maps to its label, in order. |
| ProfileCard.Tally | components/ProfileCard.tsx:18-22 | Each label maps to how often it occurs, and only labels that occur are keys. |
| ProfileCard.KeyOrder | components/ProfileCard.tsx:18-24 | Each label appears once as a key, and the keys are in order of their labels' first appearance. |
| ProfileCard.IndexIn | components/ProfileCard.tsx:18-24 | The position found is the first at which the value occurs. |
| ProfileCard.AppendKeepsFirstIndices | components/ProfileCard.tsx:18-22 | Adding a label at the end keeps the first position of every label already there, and a new label is first seen at the end. |
| ProfileCard.Reduce | components/ProfileCard.tsx:24 | The reduction ends on a last maximum: no key counts more, and no later key counts as much. |
| ProfileCard.MostFrequent | components/ProfileCard.tsx:24 | The chosen label is one of the labels. |
| ProfileCard.MostFrequentIsLastMaximum | components/ProfileCard.tsx:24 | No label is more frequent than the chosen one, and of equally frequent labels the one first seen last wins. |
| ProfileCard.OwnWins | components/ProfileCard.tsx:13 | The user's wins are exactly the history rows they authored. |
| ProfileCard.FavoriteCategory | components/ProfileCard.tsx:12-25 | Without own wins the card shows "—". Otherwise it shows the label of one of the user's own wins. |
| ProfileCard.FavoriteIsLastMostFrequent | components/ProfileCard.tsx:12-25 | The favourite is a most frequent label of the user's own wins, ties going to the one first seen last. |
| ProfileCard.TieGoesToTheLaterKey | components/ProfileCard.tsx:24 | With one "еда" win followed by one uncategorised win, the favourite is "разное". |
| ProfileView.ProfileOrder | components/ProfileView.tsx:12-16 | The comparator puts the current user before anyone else, then more wins first, and is a total preorder. |
| ProfileView.UserCompare | components/ProfileView.tsx:12-16 | The current user compares before anyone. Between two others, the one with more wins compares first, and equal wins compare equal. |
| ProfileView.SortedUsers | components/ProfileView.tsx:12-16 | The shown users are a permutation of the list: the current user's entry first, everybody else by wins, most first. |
| ProfileView.CurrentUserFirst | components/ProfileView.tsx:13 | When present, the current user is the first card. |
| ProfileView.Cards | components/ProfileView.tsx:20-25 | Each card shows the user in sorted order, marked exactly when it is the current user. |
| ProfileView.ExactlyOneCardMarked | components/ProfileView.tsx:25 | With unique ids and the current user present, exactly one card is marked, and it is the first. |
| RewardsView.CheapestFirst | components/RewardsView.tsx:21 | Cheapest first is a total preorder. |
| RewardsView.Balance | components/RewardsView.tsx:29 | A missing balance reads as 0. |
| RewardsView.ShowShop | components/RewardsView.tsx:11-43 | The shop is empty exactly when there are no rewards. Otherwise it lists a permutation of the rewards, cheapest first, under the balance. Each buy button is disabled exactly when the balance falls short. |
| RewardsView.AffordableRewardsComeFirst | components/RewardsView.tsx:21-43 | Once a buy button is disabled, so is every one after it. |
| RewardsView.EveryRewardListed | components/RewardsView.tsx:32-43 | Every reward is listed, enabled exactly when affordable. |

## Left out

- Remote requests and subscriptions are not performed. Each request is represented by a success flag, or by the row it returns (None on failure).
- The order in which the asynchronous setters resolve is not modelled. Each touches a different list.
- Alerts and `confirm` dialogs are not modelled. A `confirm` answer is the `confirmed` input.
- Chess rules (move generation, check, mate, FEN and PGN) are not modelled. The engine is an oracle whose answers are inputs.
- Dates (`created`, `timestamp`) are plain integers. `Date.now()` and the daily quest assignment are left out, because they depend on the clock and on random choice.
- The energy regeneration check is left out, because it depends on the clock.
- The handlers written in `src/App.tsx` as empty stubs are left out, because they have no body to model: `handleBuyReward` (line 617), the duel initiate, accept, decline and cancel handlers (lines 649-652), `handleRemoveOption` (line 590) and `handleSpinEnd` (line 600). The spin and option handlers of `src/App.tsx` (lines 578-615) are not part of this model; the root `App.tsx` versions of the win and add-option bookkeeping are.
- The users, options, history and purchases subscriptions of `src/App.tsx` (lines 385-388) are left out, because they are empty there. The root `App.tsx` reducers are modelled instead.
- The `user_quests` subscription (src/App.tsx:527-538) is not modelled. It is a replace by id, the same as `Common.ReplaceByKey`.
- The roulette wheel, spin animation and option removal are not part of this model. `components/Roulette.tsx` is not part of this model.
- Rendering-only parts (styling, icons, labels without logic) are left out, as are the ChessView status line and its engine predicates.
- ProfileCard.KeyOrder: `Object.keys` lists integer-like keys first, in numeric order, and the rest in order of first appearance. The model uses first appearance for every label, because numeric and prototype-named labels are not expected.
- ProfileCard.Tally: counts into a map, while the source counts into a plain `{}` object (components/ProfileCard.tsx:18-21) that inherits the names of `Object.prototype`. A label such as `constructor` or `toString` reads an inherited function instead of 0, so its count becomes a string and the strict `>` of line 24 compares NaN; for labels `["constructor", "constructor", "еда"]` the source shows "еда" where the model shows "constructor". A label `__proto__` never becomes a key, and if every win carries it, the source's `reduce` over no keys throws where the model returns a label. Category texts are free text, so these labels can occur; the model describes the evident intent of a count per label.
- Field names are abstracted, and the model reads one field per concept. The model describes what the views evidently intend, not what they do as written. `components/ProfileView.tsx:15` and `components/ProfileCard.tsx:48,52` read `user.stats.wins` and `user.stats.ideasProposed`, and `components/ProfileCard.tsx:13,19` read `win.option.authorId` and `win.option.category`. The records of `types.ts` (lines 26-51) have no `stats` or `option` object; they carry `stats_wins`, `stats_ideasProposed`, `author` and `option_category`. As written, the views therefore throw while rendering: the profile sort throws on comparing two other users, and every profile card throws on its stats and, with any win history, on its filter.
- Sorting.Sort: the contract promises a sorted permutation but not stability. JavaScript's sort keeps equal entries in input order, and no modelled property depends on the order of equal entries.
- ProfileCard.MostFrequent: the contract states only membership. The maximality and tie rule are in `ProfileCard.MostFrequentIsLastMaximum`.
- Startup.Screen holds only the game and duel lists and the data errors. The users, options, win history, rewards and purchases lists that the load also fills and that its failure path empties are not in the record. The separate purchases request (src/App.tsx:348-355) is left out, and so are the sorts applied to the users and options on load.
- Roulette.HandleWin: writes are issued one by one and the first rejection stops the loop. Which requests fail (the history create, the read of all users, each user update) is an input, and so are the new row's id and the time.

## Findings

| source | as written | input that shows it | evidently intended | confidence | as-written member | corrected member |
|---|---|---|---|---|---|---|
| src/App.tsx:239-242 | On disconnect the stored client id is cleared. The next id then takes the first-connection branch, which stores it without bumping the refresh counter. | Stored id "a". Poll with no id, then with "b". The counter stays at 0, so no data refresh happens and the subscriptions are not re-established after the reconnect. | A reconnect after a seen disconnect refreshes the data, like a reconnect between two polls. | not executed | Reconnect.ReconnectAfterSeenDisconnectIsMissed | Reconnect.RunCountsEveryChange |
| components/ChessView.tsx:64 | A square is light when the file index plus the rank is odd. | a1 (file index 0, rank 1) is drawn light and h1 dark, the reverse of a real board, for both players. | a1 dark, h1 light: light when the sum is even. | not executed | ChessView.CornerColoursAsWritten | ChessView.StandardColouring |
| src/App.tsx:371-375 | A failed baseline load empties the duel and chess lists but never the three tic-tac-toe lists. | A pending tic-tac-toe challenge is on screen and the next load fails. The challenge is still listed, while the chess and duel lists are empty. | A failed load empties the tic-tac-toe lists too, like every other list it would have filled. | not executed | Startup.StaleChallengeAfterFailedLoad | Startup.Load |
