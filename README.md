# Bolão engine — a Dafny model

This project models the logic of a lottery-pool ("bolão") web application.
Players place bets of ten numbers on a round of quina (numbers 1..80) or
Mega-Sena (1..60). Each draw of five numbers is scored against every bet of
the round. The prize page ranks players by the hits they have accumulated
over the draws and picks the prize winners. Payments of bets are tracked as
pending or paid.

The application keeps its state in a hosted database and its logic in page
and dialog components. The model keeps:

- the database as the class `Store.Database`, one `seq` field per table;
- every dialog whose form state changes step by step as a class with that
  state, whose methods state the whole new state of the form and of the
  tables;
- every computation over fetched rows (rankings, summaries, labels, payloads)
  as a function with lemmas.

One Dafny module stands for one source file. Four shared modules carry what
several files use:

- `Lottery`: identifiers, amounts in cents, grid sizes and `find`.
- `Sorting`: the stable `Array.prototype.sort` over a strict weak order.
- `Grouping`: the first-appearance key order of a JavaScript `Map`.
- `Selection`: the `toggleNumber` logic of the four number grids.

Store calls that can fail are boolean parameters (`ok`, `betsOk`, ...). Keys
the store assigns and timestamps the clock gives are parameters too.

Where the rules written on the home page (src/pages/HomePage.tsx:131-144)
and the code differ, the model follows the code:

- every prize category goes to a single entry;
- ranking is per player, summing `matches_count` over all of a player's rows,
  so a number hit in two draws counts twice.

The round status also differs between files. lib/types.ts:14 names
`completed`, while the edit dialog writes `finished`. `Store.RoundStatus` has
all three values, and the edit dialog offers only `Active` and `Finished`.

Three behaviours of the code are modelled as written:

- a bet created from the "new bet" dialog always gets a payment of 20.00, not
  the round's bet value;
- blanking the e-mail of an existing player leaves the stored e-mail in place;
- editing a bet's or a draw's numbers does not recompute the stored results.

## Model

| member | source | states |
|---|---|---|
| Lottery.Universe | components/add-draw-dialog.tsx:40 | The grid offers exactly 1..MaxNumber, in order |
| Lottery.UniverseMembers | components/create-bet-dialog.tsx:44 | A number is on the grid iff it is in 1..80 for quina and in 1..60 for Mega-Sena |
| Lottery.DayPart | components/edit-draw-dialog.tsx:21 | The date part is a prefix of the timestamp, has no 'T', and is the whole text when there is no 'T' |
| Lottery.BetValueOr | components/edit-round-dialog.tsx:41 | A stored non-zero value is kept; a missing or zero value becomes the default 5.00 |
| Lottery.Find | src/pages/PrizesDetailPage.tsx:68 | `find` gives the first element of the list that satisfies the test (no earlier one does), and gives none iff no element does |
| Lottery.FindIndex | src/pages/PrizesDetailPage.tsx:70 | The first index whose element satisfies the test; no earlier element does |
| Sorting.SortByCorrect | components/bets-list.tsx:95 | The sort is a permutation, is ordered, and keeps tied elements in input order (stable) |
| Sorting.SortByMembers | src/pages/DrawDetailPage.tsx:24 | Sorting neither adds nor drops an element |
| Grouping.DistinctKeysCount | components/detailed-results-report.tsx:253 | A `Map` keyed by first appearance has one entry per distinct key |
| Grouping.DistinctKeysMembers | components/detailed-results-report.tsx:139-145 | The keys of the `Map` are exactly the keys seen |
| Grouping.SumCountsDistinct | components/prize-report-content.tsx:58-62 | The per-key occurrence counts add up to the number of elements |
| Store.BetsOfRound | components/add-draw-dialog.tsx:88 | The round's bets are exactly the bets with that round id |
| Store.DrawsOfRound | src/pages/DrawDetailPage.tsx:24 | The round's draws are exactly the draws with that round id |
| Store.FirstPayment | components/bets-list.tsx:113 | The first payment is absent iff the bet has no payments, and is otherwise its first payment |
| Store.IsPaid | src/pages/RoundReportPage.tsx:33 | A bet is paid iff it has a first payment and that one is paid; a paid bet has some paid payment |
| Store.SetPaymentStatus | components/mark-paid-dialog.tsx:31-36 | Rows with the id get the new status and date and keep id, bet and amount; every other row is unchanged |
| Store.OrNull | components/create-round-dialog.tsx:49-50 | An empty text field is stored as null, any other as itself |
| Selection.Without | components/add-draw-dialog.tsx:45 | Removing a number keeps exactly the other members, and changes nothing when the number is absent |
| Selection.Toggled | components/add-draw-dialog.tsx:43-49 | Pressing a selected number removes it and shortens the selection; an unselected one is added once below the cap; at the cap nothing changes |
| Selection.ToggleMembers | components/add-draw-dialog.tsx:43-49 | A press removes a selected number; it adds an unselected one only while fewer than the cap are selected |
| Selection.ToggleWellFormed | components/create-bet-dialog.tsx:47-53 | A press keeps the selection free of repeats, within the cap and on the grid |
| Selection.ToggleSorted | components/add-draw-dialog.tsx:47 | With re-sorting on insertion the selection stays in ascending order |
| Selection.ToggleTwice | components/edit-bet-dialog.tsx:50-56 | Pressing the same button twice restores the selection, unless the first press was refused at the cap |
| Selection.DisplaySortMatchesSortedInsert | components/create-bet-dialog.tsx:165 | Appending and then sorting for display gives the same selection as inserting in order |
| Selection.DisplaySortIncreasing | components/edit-bet-dialog.tsx:123 | The display sort of a duplicate-free selection is strictly increasing, with the same members and length |
| AddDrawDialog.MatchedNumbers | components/add-draw-dialog.tsx:111 | The matched numbers are exactly the bet's numbers that were drawn |
| AddDrawDialog.Score | components/add-draw-dialog.tsx:112-117 | A row carries the bet and draw ids, and its count is the length of the matched list |
| AddDrawDialog.ResultsFor | components/add-draw-dialog.tsx:110-118 | One row per bet, in bet order, all with the new draw id |
| AddDrawDialog.MatchedAppend | components/add-draw-dialog.tsx:111 | Matching keeps the bet's order: it distributes over concatenation |
| AddDrawDialog.MatchedMultiplicity | components/add-draw-dialog.tsx:111 | Every occurrence of a drawn number is kept and every other number is dropped |
| AddDrawDialog.MatchedCount | components/add-draw-dialog.tsx:115 | For a bet without repeats, the count is the size of the intersection with the draw, at most five |
| AddDrawDialog.MatchedNoDup | components/add-draw-dialog.tsx:111 | A bet without repeats has matches without repeats |
| AddDrawDialog.RepeatedBetNumberScoresTwice | components/add-draw-dialog.tsx:111 | A number repeated in a bet is matched once per occurrence |
| AddDrawDialog.AddDrawForm.constructor | components/add-draw-dialog.tsx:35-36 | The dialog starts closed, with today's date and nothing selected |
| AddDrawDialog.AddDrawForm.Toggle | components/add-draw-dialog.tsx:43-49 | The selection becomes the sorted toggle result and stays well formed |
| AddDrawDialog.AddDrawForm.SetDate | components/add-draw-dialog.tsx:177 | The date field changes only the date |
| AddDrawDialog.AddDrawForm.Submit | components/add-draw-dialog.tsx:51-177 | Writes nothing while the required date is empty; rejects anything but five numbers; stores the draw; writes one scored row per bet of the round; resets and closes after scoring or when the round has no bets, and only then |
| PrizesDetailPage.Accumulate | src/pages/PrizesDetailPage.tsx:36-44 | The `forEach` over the result rows yields each player's name, total and distinct draws, in first-appearance order |
| PrizesDetailPage.Tallies | src/pages/PrizesDetailPage.tsx:36-47 | One entry per player, no player twice, each a player who has rows |
| PrizesDetailPage.TalliesPlayers | src/pages/PrizesDetailPage.tsx:36-47 | Exactly the players with rows have an entry, and no player has two |
| PrizesDetailPage.Leaderboard | src/pages/PrizesDetailPage.tsx:46-48 | The leaderboard holds the tallied entries, by non-increasing total |
| PrizesDetailPage.LeaderboardRanked | src/pages/PrizesDetailPage.tsx:46-48 | The leaderboard has the same entries, by non-increasing total, and ties keep first-appearance order |
| PrizesDetailPage.TotalAdditive | src/pages/PrizesDetailPage.tsx:42 | Totals add up row by row, so a number hit in two draws counts twice |
| PrizesDetailPage.DrawsAtMostRows | src/pages/PrizesDetailPage.tsx:43 | A player's count of distinct draws is at most the player's row count |
| PrizesDetailPage.TwoDrawsAccumulate | src/pages/PrizesDetailPage.tsx:42-43 | One player scoring in two draws gets both scores summed and both draws counted |
| PrizesDetailPage.MainWinner | src/pages/PrizesDetailPage.tsx:68 | The first entry with ten or more hits (no earlier entry has that many), none iff no entry has |
| PrizesDetailPage.ZeroHitsWinner | src/pages/PrizesDetailPage.tsx:70 | The first entry without hits (every earlier entry has some), none iff every entry has hits |
| PrizesDetailPage.MainWinnerIsLeader | src/pages/PrizesDetailPage.tsx:68 | On the ranked list the main winner exists iff the leader has at least ten hits, and is then the leader |
| PrizesDetailPage.SecondPlace | src/pages/PrizesDetailPage.tsx:69 | Second place exists iff there is no main winner and the list is not empty, and has fewer than ten hits |
| PrizesDetailPage.SecondPlaceIsLeader | src/pages/PrizesDetailPage.tsx:69 | Second place is the leader exactly when the leader has fewer than ten hits |
| PrizesDetailPage.LowestHitsWinner | src/pages/PrizesDetailPage.tsx:71 | The lowest-hit winner exists iff there is no zero-hit winner and the list is not empty, and has hits |
| PrizesDetailPage.LowestHitsIsMinimum | src/pages/PrizesDetailPage.tsx:70-71 | Exactly one of the zero-hit and lowest-hit winners exists on a non-empty list; the lowest holds the minimum |
| PrizesDetailPage.BonusDrawsOf | src/pages/PrizesDetailPage.tsx:51 | At most seven draws, all of the round |
| PrizesDetailPage.BonusDrawsChosen | src/pages/PrizesDetailPage.tsx:51 | At most seven draws, all of the round, ascending by number, every draw of the round when it has fewer than seven, and no draw left out numbered below one taken |
| PrizesDetailPage.BestOfDraw | src/pages/PrizesDetailPage.tsx:54 | The best count of a draw bounds all its rows and is reached by one when positive |
| PrizesDetailPage.TopOfDraw | src/pages/PrizesDetailPage.tsx:54 | At most one row, of that draw, holding its best count; none iff the draw has no rows |
| PrizesDetailPage.DailyWinners | src/pages/PrizesDetailPage.tsx:52-58 | The loop collects the winners of the bonus draws |
| PrizesDetailPage.DailyWinnersOf | src/pages/PrizesDetailPage.tsx:52-58 | At most one winner per draw, each with a positive count |
| PrizesDetailPage.DailyWinnersAreBest | src/pages/PrizesDetailPage.tsx:53-57 | One winner per draw whose top count is positive, in draw order, holding that count |
| DetailedResultsReport.GroupByPlayer | components/detailed-results-report.tsx:139-145 | The `forEach` with `push` builds the groups of the results by player name |
| DetailedResultsReport.Groups | components/detailed-results-report.tsx:138-145 | The `Map` has one entry per name, no name twice, each the name of a result |
| DetailedResultsReport.GroupOfComplete | components/detailed-results-report.tsx:144 | A group holds every result of its player, as many as the name occurs |
| DetailedResultsReport.GroupsPartition | components/detailed-results-report.tsx:139-145 | Every result is in exactly one group, that of its player, and the group sizes add up to the result count |
| DetailedResultsReport.GroupOfAppend | components/detailed-results-report.tsx:144 | Within a group the results keep their input order |
| DetailedResultsReport.SortedPlayers | components/detailed-results-report.tsx:147 | Sorting the groups keeps exactly the same groups |
| DetailedResultsReport.SortedPlayersByName | components/detailed-results-report.tsx:147 | Groups are listed by name, one per distinct name, so the player count is the number of distinct names |
| DetailedResultsReport.HitsWord | components/detailed-results-report.tsx:236 | The singular "acerto" is used iff the count is 1 |
| DetailedResultsReport.BetsWord | components/detailed-results-report.tsx:195 | The singular "jogo" is used iff the group has one bet |
| DetailedResultsReport.Badges | components/detailed-results-report.tsx:207-210 | One badge per bet number, highlighted iff the number was matched |
| DetailedResultsReport.BadgesAreBetNumbers | components/detailed-results-report.tsx:207-208 | The badges show the bet's numbers in ascending order, as the same multiset: each number as often as it occurs in the bet |
| DetailedResultsReport.RenderGroup | components/detailed-results-report.tsx:199-236 | The k-th bet of a group is labelled Jogo k, with its badges and hit label |
| DetailedResultsReport.MaxOf | components/detailed-results-report.tsx:258 | The top count is an element bounding all others, and is absent for an empty list |
| DetailedResultsReport.WithHits | components/detailed-results-report.tsx:264 | The number of bets with hits is at most the number of bets, and equals it iff every bet has a hit |
| DetailedResultsReport.WithHitsAppend | components/detailed-results-report.tsx:264 | The count over two lists of results is the sum of the two counts |
| DetailedResultsReport.WithHitsSnoc | components/detailed-results-report.tsx:264 | One more result adds one exactly when it has a hit |
| DetailedResultsReport.WithHitsPositive | components/detailed-results-report.tsx:264 | Some bet is counted as having hits iff some result has a positive count |
| DetailedResultsReport.Summarize | components/detailed-results-report.tsx:249-266 | The bet total is the result count, the player count is the number of distinct names, and neither that nor the count with hits exceeds the bet total |
| DetailedResultsReport.SummaryConsistent | components/detailed-results-report.tsx:249-266 | The summary figures agree: the top count is positive exactly when some bet has hits |
| PrizeReportContent.CountBets | components/prize-report-content.tsx:58-62 | Each player with bets maps to the number of their bets, and no one else is a key |
| PrizeReportContent.CountsCoverAllBets | components/prize-report-content.tsx:58-62 | The per-player counts add up to the number of bets |
| PrizeReportContent.BetNumberer.Next | components/prize-report-content.tsx:64-69 | The k-th call for a player answers k, and other players' numbers are untouched |
| PrizeReportContent.RowFor | components/prize-report-content.tsx:251-268 | Position i+1; a "(Jogo n)" label iff the player has several bets, with n between 1 and that count; the first row highlighted; green iff ten or more hits |
| PrizeReportContent.RenderRanking | components/prize-report-content.tsx:251-253 | Rendering the ranking row by row yields the intended row for every position |
| PrizeReportContent.JogoNumbering | components/prize-report-content.tsx:252-265 | A player's rows are labelled "(Jogo k)" in increasing order from 1 |
| PrizeReportContent.SingleBetUnlabelled | components/prize-report-content.tsx:253 | A row has no "(Jogo n)" label iff its player has a single bet |
| PrizeReportContent.SecondPlaceCard | components/prize-report-content.tsx:157 | The second-place card is shown iff there is a second place and no main winner |
| PrizeReportContent.ZeroHitCard | components/prize-report-content.tsx:185-194 | The card shows the zero-hit winner when present, otherwise the lowest-hit one with its count appended |
| PrizeReportContent.ZeroHitCardNamesWinner | components/prize-report-content.tsx:193-194 | With only one of the two winners given, the card names that winner |
| RoundReportPage.PaidCount | src/pages/RoundReportPage.tsx:33 | The paid count is at most the bet count, equals it iff all are paid, and is 0 iff none is |
| RoundReportPage.PaidAmount | src/pages/RoundReportPage.tsx:35 | The paid amount is 0 when no bet is paid, and the sum of all first payments when every bet is |
| RoundReportPage.PendingAmount | src/pages/RoundReportPage.tsx:36 | The pending amount is 0 when every bet is paid or has no payment, and the sum of all first payments when none is paid |
| RoundReportPage.Summarize | src/pages/RoundReportPage.tsx:32-36 | The total is the bet count and paid plus pending equals the total |
| RoundReportPage.PendingAreUnpaid | src/pages/RoundReportPage.tsx:34 | Pending counts exactly the bets whose first payment is not paid, bets without payments included |
| RoundReportPage.AmountsSplit | src/pages/RoundReportPage.tsx:35-36 | Paid plus pending amount is the sum of every first payment |
| RoundReportPage.WithoutPaymentIsPendingForFree | src/pages/RoundReportPage.tsx:34-36 | A bet without payments adds to the pending count but to neither amount |
| RoundReportPage.OnlyFirstPaymentCounts | src/pages/RoundReportPage.tsx:33-36 | Bets with the same first payments give the same report, so later payments are ignored |
| CreateBetDialog.NewBetPayment | components/create-bet-dialog.tsx:84-92 | A new bet's payment is pending, undated, for that bet, and always 20.00 |
| CreateBetDialog.CreateBetForm.constructor | components/create-bet-dialog.tsx:37-40 | The dialog starts closed with no player and no numbers |
| CreateBetDialog.CreateBetForm.ChoosePlayer | components/create-bet-dialog.tsx:128 | Choosing a player changes only the player |
| CreateBetDialog.CreateBetForm.Toggle | components/create-bet-dialog.tsx:47-53 | The selection becomes the toggle result and stays well formed |
| CreateBetDialog.CreateBetForm.Clear | components/create-bet-dialog.tsx:152 | "Limpar" empties the selection only |
| CreateBetDialog.CreateBetForm.Render | components/create-bet-dialog.tsx:165 | The display sorts the state itself, leaving it strictly increasing |
| CreateBetDialog.CreateBetForm.SubmitEnabled | components/create-bet-dialog.tsx:196 | Submitting is enabled iff ten numbers and a player are chosen |
| CreateBetDialog.CreateBetForm.Submit | components/create-bet-dialog.tsx:55-128 | Writes nothing without a player (the select is required); rejects anything but ten numbers; inserts the bet and its payment; resets and closes once the bet is stored |
| CreateBetDialog.CreatedBetWellFormed | components/create-bet-dialog.tsx:58 | A bet accepted by the dialog has ten distinct grid numbers |
| EditBetDialog.SetBetNumbers | components/edit-bet-dialog.tsx:68-71 | Only the numbers of the bet with that id change |
| EditBetDialog.EditBetForm.constructor | components/edit-bet-dialog.tsx:35-40 | The dialog starts closed with the bet's numbers |
| EditBetDialog.EditBetForm.OpenChange | components/edit-bet-dialog.tsx:44-48 | Opening reloads the bet's numbers |
| EditBetDialog.EditBetForm.Toggle | components/edit-bet-dialog.tsx:50-56 | The selection becomes the toggle result and stays well formed |
| EditBetDialog.EditBetForm.Clear | components/edit-bet-dialog.tsx:110 | "Limpar" empties the selection only |
| EditBetDialog.EditBetForm.Render | components/edit-bet-dialog.tsx:123 | The display sorts the state itself, keeping its numbers |
| EditBetDialog.EditBetForm.Submit | components/edit-bet-dialog.tsx:58-82 | Rejects anything but ten numbers; writes only the bet's numbers; results stay as they were |
| EditBetDialog.UntouchedEditKeepsBets | components/edit-bet-dialog.tsx:68-71 | Saving an ascending bet unchanged leaves the table unchanged |
| EditDrawDialog.SetDraw | components/edit-draw-dialog.tsx:32 | Only numbers and date of the draw with that id change |
| EditDrawDialog.EditDrawForm.constructor | components/edit-draw-dialog.tsx:14-17 | The dialog starts closed with the draw's numbers and an empty date |
| EditDrawDialog.EditDrawForm.OpenChange | components/edit-draw-dialog.tsx:21 | Opening reloads the draw's numbers and the date part of its date |
| EditDrawDialog.EditDrawForm.SetDate | components/edit-draw-dialog.tsx:44 | The date field changes only the date |
| EditDrawDialog.EditDrawForm.Toggle | components/edit-draw-dialog.tsx:23-26 | The selection becomes the toggle result and stays well formed |
| EditDrawDialog.EditDrawForm.Clear | components/edit-draw-dialog.tsx:46 | "Limpar" empties the selection only |
| EditDrawDialog.EditDrawForm.Render | components/edit-draw-dialog.tsx:47 | The display sorts the state itself, keeping its numbers |
| EditDrawDialog.EditDrawForm.Submit | components/edit-draw-dialog.tsx:28-44 | Writes nothing while the required date is empty; rejects anything but five numbers; writes only the draw's numbers and date; results stay as they were |
| EditDrawDialog.UntouchedEditKeepsDraws | components/edit-draw-dialog.tsx:32 | Saving an ascending draw with a plain date unchanged leaves the table unchanged |
| DrawDetailPage.NewestFirstOrdered | src/pages/DrawDetailPage.tsx:24 | The list holds exactly the round's draws, by descending number |
| DrawDetailPage.NewestFirst | src/pages/DrawDetailPage.tsx:24 | The list holds exactly the round's draws, as many as the round has |
| DrawDetailPage.NextDrawNumber | src/pages/DrawDetailPage.tsx:50 | One past the first listed number (the `|| 0` fallback gives the same 1 for a first number of 0), and 1 for an empty list |
| DrawDetailPage.NextExceedsAll | src/pages/DrawDetailPage.tsx:50 | The next number exceeds every number of the round; it is at least 1 for non-negative numbers, and 1 with no draws |
| DrawDetailPage.AddingNextKeepsNumbersDistinct | src/pages/DrawDetailPage.tsx:50 | Recording a draw under the next number keeps the round's numbers distinct |
| DrawDetailPage.CanAddDraw | src/pages/DrawDetailPage.tsx:49 | Adding a draw is offered to a logged-in user on an active round only |
| DrawDetailPage.DrawCountLabel | src/pages/DrawDetailPage.tsx:54 | The label is singular iff there is exactly one draw |
| MarkPaidDialog.MarkPaidForm.constructor | components/mark-paid-dialog.tsx:18-21 | The dialog starts closed for its payment |
| MarkPaidDialog.MarkPaidForm.Open | components/mark-paid-dialog.tsx:55-56 | The trigger opens the dialog |
| MarkPaidDialog.MarkPaidForm.Confirm | components/mark-paid-dialog.tsx:24-51 | On success only that payment becomes paid, dated now, and the dialog closes; on failure nothing changes and an alert shows |
| MarkPaidDialog.MarkingFirstPaymentPays | components/mark-paid-dialog.tsx:33-34 | A bet whose first payment is marked counts as paid afterwards |
| BetsList.SortedBetsOrdered | components/bets-list.tsx:95 | Every bet listed once, by player name, equal names keeping fetch order |
| BetsList.SortedBets | components/bets-list.tsx:95 | The sorted list is a permutation of the fetched bets |
| BetsList.BadgeFor | components/bets-list.tsx:132-138 | The badge shows "paid" with the first payment's amount iff that payment is paid |
| BetsList.ActionsFor | components/bets-list.tsx:145-149 | Edit and delete iff authenticated; mark-paid iff a first payment exists unpaid; undo iff paid; never both |
| BetsList.Unpay | components/bets-list.tsx:71-93 | With a chosen payment it becomes pending and undated on success; nothing else changes; failures alert |
| BetsList.UnpayUndoesMarkPaid | components/bets-list.tsx:75-81 | Undoing a just-marked pending payment restores the table |
| BetsList.MarkPaidUndoesUnpay | components/bets-list.tsx:75-81 | Marking a just-undone payment again at the same time restores the table |
| BetsList.ActionsAlternate | components/bets-list.tsx:148-149 | After undo the card offers mark-paid for the payment, and after marking it offers undo |
| SrcBetsList.ActionsFor | src/components/bets-list.tsx:58-61 | Edit and delete iff authenticated; mark-paid iff a first payment exists unpaid |
| SrcBetsList.SameMarkPaidRule | src/components/bets-list.tsx:44-45 | The mark-paid rule is the other list's, and a paid bet is never offered it |
| UpdatePaymentsValueButton.Repriced | components/update-payments-value-button.tsx:41 | Payments of the listed bets get the new amount; status, date, bet and id are kept; others are unchanged |
| UpdatePaymentsValueButton.Reprice | components/update-payments-value-button.tsx:41 | The loop over the payments array performs that update in place |
| UpdatePaymentsValueButton.HandleUpdate | components/update-payments-value-button.tsx:14-58 | Declined, failed fetch, no bets, failed update and success, each iff its condition; payments change only on success |
| UpdatePaymentsValueButton.RepricedIdempotent | components/update-payments-value-button.tsx:41 | A second update with the same value changes nothing |
| UpdatePaymentsValueButton.RepricedCarriesValue | components/update-payments-value-button.tsx:41 | After the update every payment of the listed bets carries the value |
| CopyBetsDialog.EligibleSourceRounds | components/copy-bets-dialog.tsx:85-90 | Offered rounds are exactly those of the same lottery with a different id |
| CopyBetsDialog.CopiedBets | components/copy-bets-dialog.tsx:160-164 | One copy per previewed bet, same player and numbers, in the current round |
| CopyBetsDialog.CopiedPayments | components/copy-bets-dialog.tsx:172-176 | One pending, undated payment of the bet value per inserted bet |
| CopyBetsDialog.CopyAddsToCurrentRoundOnly | components/copy-bets-dialog.tsx:160-166 | After a copy the current round has its bets followed by the copies, and every other round is unchanged |
| CopyBetsDialog.CopyBetsForm.constructor | components/copy-bets-dialog.tsx:53 | The dialog starts closed, empty, with bet value 5.00 |
| CopyBetsDialog.CopyBetsForm.OpenChange | components/copy-bets-dialog.tsx:57-78 | Opening loads the eligible rounds and takes a truthy stored bet value; closing clears selection, preview and error |
| CopyBetsDialog.CopyBetsForm.SelectRound | components/copy-bets-dialog.tsx:102-130 | Selecting a round loads its bets as the preview, or shows the preview error |
| CopyBetsDialog.CopyBetsForm.CopyBets | components/copy-bets-dialog.tsx:132-196 | Nothing without a selection or preview; declining keeps the tables; success appends the copies and their payments and closes |
| CreateRoundDialog.NewRound | components/create-round-dialog.tsx:43-52 | A new round is active, dated now, of the chosen lottery, with empty dates as null |
| CreateRoundDialog.CreateRoundForm.constructor | components/create-round-dialog.tsx:30-35 | The form starts with empty fields and quina |
| CreateRoundDialog.CreateRoundForm.SetName | components/create-round-dialog.tsx:88-89 | The name field changes only the name |
| CreateRoundDialog.CreateRoundForm.SetLotteryType | components/create-round-dialog.tsx:99-108 | The lottery type changes only that field |
| CreateRoundDialog.CreateRoundForm.SetDates | components/create-round-dialog.tsx:118-131 | The date fields change only those fields |
| CreateRoundDialog.CreateRoundForm.Submit | components/create-round-dialog.tsx:39-92 | Writes nothing while the required name is empty; on success the round is appended and the form resets and closes; on failure nothing changes and an alert shows |
| EditRoundDialog.DateField | components/edit-round-dialog.tsx:39-40 | A missing date shows as empty, a present one as a prefix of it |
| EditRoundDialog.UpdateRound | components/edit-round-dialog.tsx:54-61 | Only that round changes; its id, lottery type and start date are never written |
| EditRoundDialog.EditRoundForm.constructor | components/edit-round-dialog.tsx:36-42 | The form takes the round's fields, with bet value 5.00 when the round has none |
| EditRoundDialog.EditRoundForm.ChooseStatus | components/edit-round-dialog.tsx:140-146 | Only "active" or "finished" can be chosen |
| EditRoundDialog.EditRoundForm.SetFields | components/edit-round-dialog.tsx:94-135 | The handlers replace their fields only |
| EditRoundDialog.EditRoundForm.Submit | components/edit-round-dialog.tsx:63-117 | Writes nothing while the required name is empty or the value is below 0.01; the round is updated and the dialog closes only when the update succeeds, and an alert shows otherwise |
| EditRoundDialog.UntouchedFormKeepsRound | components/edit-round-dialog.tsx:36-61 | Saving an untouched form with plain dates and a value writes the round back unchanged |
| EditRoundDialog.SavingFillsDefaultValue | components/edit-round-dialog.tsx:41 | A round without a value gets 5.00 when saved from the dialog |
| AddPlayerDialog.Digits | components/add-player-dialog.tsx:22 | Stripping non-digits leaves only digits and is no longer than the input |
| AddPlayerDialog.DigitsMembers | components/add-player-dialog.tsx:22 | A character survives iff it is a digit |
| AddPlayerDialog.FormatPhone | components/add-player-dialog.tsx:21-28 | Fewer than six digits come back bare; otherwise the digits plus four mask characters: "(" first, ") " after the area code, "-" four digits later (five for eleven digits) |
| AddPlayerDialog.FormatKeepsDigits | components/add-player-dialog.tsx:21-28 | Formatting keeps exactly the digit sequence |
| AddPlayerDialog.FormatIdempotent | components/add-player-dialog.tsx:21-33 | Formatting twice equals formatting once, and validity is unchanged by formatting |
| AddPlayerDialog.IsValidPhone | components/add-player-dialog.tsx:30-33 | A valid phone has at least ten characters and formats to the full mask |
| AddPlayerDialog.Trim | components/add-player-dialog.tsx:73 | Trimming gives empty iff the text is blank, and otherwise starts and ends with a non-blank |
| AddPlayerDialog.Payload | components/add-player-dialog.tsx:61-131 | Blocked iff the required name is empty; rejected iff the phone is non-empty and invalid; otherwise the name, the phone or null, and the trimmed e-mail only when not blank |
| AddPlayerDialog.Inserted | components/add-player-dialog.tsx:87 | A new player gets the payload's fields, an absent e-mail as null |
| AddPlayerDialog.Edited | components/add-player-dialog.tsx:80-83 | An update writes name and phone, and the e-mail only when present |
| AddPlayerDialog.BlankEmailKeepsStoredEmail | components/add-player-dialog.tsx:73 | Blanking an existing player's e-mail leaves the stored one |
| AddPlayerDialog.FormattedPhoneAccepted | components/add-player-dialog.tsx:57-67 | With a name given, a typed phone with digits is accepted iff it has 10 or 11 digits, is rejected otherwise, and is stored formatted |
| PlayerList.MobileClassification | components/player-list.tsx:29-32 | Mobile means eleven digits; a valid phone that is not mobile has ten |
| PlayerList.IsMobilePhone | components/player-list.tsx:29-32 | A mobile number has at least eleven characters and is a valid phone |
| PlayerList.FormattingKeepsMobile | components/player-list.tsx:30 | Punctuation added by formatting does not change the classification |
| PlayerList.SavedPhoneShown | components/player-list.tsx:106 | A saved player shows the phone line iff a phone was given |
| SignupForm.Validate | components/signup-form.tsx:27-35 | Mismatch iff the passwords differ; too short iff they match with under six UTF-16 units; pass otherwise |
| SignupForm.Utf16Length | components/signup-form.tsx:32 | The UTF-16 length lies between the character count and twice it |
| SignupForm.Utf16LengthOfBmp | components/signup-form.tsx:32 | Without characters beyond U+FFFF, the UTF-16 length is the character count |
| SignupForm.ThreeEmojiAccepted | components/signup-form.tsx:32 | Three emoji pass the length check, since each takes two UTF-16 units |
| SignupForm.HandleSubmit | components/signup-form.tsx:23-51 | The service is called only when both checks pass; success only when it reports success; its error otherwise |
| SignupForm.MismatchWinsOverLength | components/signup-form.tsx:27-30 | Short mismatched passwords report the mismatch and do not call the service |
| SignUpPage.Submit | src/pages/SignUpPage.tsx:20-30 | Same checks in the same order, length in UTF-16 units; an error result sets the error, a success result sets success |
| SignUpPage.SameAsForm | src/pages/SignUpPage.tsx:22-28 | The page and the form agree whenever the service answers |
| ErrorHandler.Translate | lib/error-handler.ts:12-30 | The three known codes map to their texts, then a JWT message to the session text, else the message or the default; never empty |
| ErrorHandler.CodeBeatsJwt | lib/error-handler.ts:13-27 | A known code wins over a message mentioning JWT |
| ErrorHandler.ExpiredTokenMessage | lib/error-handler.ts:25-27 | Any message containing "JWT" without a known code maps to the session text |
| Layout.HomeOnlyOnRoot | src/Layout.tsx:53-54 | The home entry is active iff the path is exactly "/" |
| Layout.IsActive | src/Layout.tsx:53-54 | An entry is active iff its target is a prefix of the path, and for the home target only on "/" itself |
| Layout.PrefixMatchesLongerWord | src/Layout.tsx:120-121 | The prefix rule marks "/rounds" active on "/roundsX" |
| Layout.TargetsPrefixFree | src/Layout.tsx:27-34 | No menu target other than "/" is a prefix of another |
| Layout.AtMostOneActive | src/Layout.tsx:27-34 | For any path at most one menu entry is active |

## Left out

- Store access is not modelled. Queries, inserts, updates, deletes, `router.refresh` and the client setup are foreign I/O. Tables are sequences in `Store.Database`, and the outcome of each call is a boolean parameter.
- The server-side SQL functions `calculate_matches` and `get_round_leaderboard` are not modelled; their bodies are not part of this model.
- The results query of the prize page filters on an embedded relation. Its rows are taken as the round's rows.
- The store's ordering and `limit` are written out: `PrizesDetailPage.BonusDrawsOf` sorts and cuts at seven, and `TopOfDraw` takes the best row.
- PrizesDetailPage.TopOfDraw: among rows tied for the best count it takes the first one, while the store leaves the order of ties unspecified.
- Amounts are integer cents, not JavaScript floats; `toFixed` formatting is not modelled.
- Name collation by `localeCompare("pt-BR")` is an abstract strict weak order `nameLt`.
- Dates and clocks are opaque strings. `new Date()` and `toISOString` are not modelled, so `DayPart` splits the stored text without the time-zone normalisation that `new Date(...)` applies first.
- Loading flags, spinners, alerts' wording, toasts and console logging are not modelled.
- Markup, PDF and HTML report generation, and the print button, are not modelled; only the values the reports show are.
- Authentication is a boolean input: cookies, sessions, the middleware and the login page are not modelled.
- Backup and restore, the list and index pages, routing and configuration are not modelled.
- The in-place display sorts (`selectedNumbers.sort(...)` during rendering) are assignments of the sorted sequence to the form's field. Aliasing with the bet or draw the array came from is not modelled.
- CopyBetsDialog.EligibleSourceRounds: does not model the store's descending `start_date` order of the offered rounds, only which rounds are offered.
- CopyBetsDialog.CopyBetsForm.SelectRound: the preview keeps table order rather than the store's `created_at` order.
- AddPlayerDialog.Trim: removes only the common ASCII blanks and U+00A0, U+FEFF, U+2028 and U+2029, not every Unicode space `trim` removes.
- The password length is counted in UTF-16 units, as JavaScript counts it (`SignupForm.Utf16Length`). Every other length is counted in characters; those checks look only at digits and ASCII paths, where the two counts agree.
- The delete actions of the bet lists and the player list are not modelled. They are single deletes by id through the store.
- The add-player dialog's form initialisation in edit mode and its reset after saving are not modelled; the model covers the payload and the rows written.
- The account service behind `signUp` is an input. Only its result is modelled; a call that throws in the page is not modelled, since the page does not catch it.
- Accumulated matches stored in the results table are never written by the code and are not modelled.
- SignupForm.HandleSubmit: the browser's own checks before the handler runs (`required` fields, `type="email"`, `minLength={6}`) are not modelled; only the handler's checks are.
- SignUpPage.Submit: the browser's `required`, `type="email"` and `minLength={6}` checks before the handler runs are not modelled; only the handler's checks are.
- AddPlayerDialog.Payload: the browser's `type="email"` syntax check and the phone field's `maxLength={15}` are not modelled; the `required` name is.
