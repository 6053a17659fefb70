# voyago trip planner: a Dafny model of its planning rules

voyago is a React trip planner backed by a hosted database and an identity
provider. Signed-in users create trips and share them with other users, who
are invited by notification. They build an itinerary on a map, record shared
expenses, and see who owes whom. Most of the code is UI glue. This project
models the small sequential rules inside it:

- the two expense-balance calculators (by percentage share and by equal split) and the owed label;
- the trip carousel's index-and-arrow tracker, in its current and its older copy;
- the trip store's merge of owned and shared trips;
- the notification store, the unread badge and the invitation batch;
- the share dialog's search, selection and send rules;
- the expense cache and the expense read;
- the expense form: schema, participants, payer and split editing, the submitted record;
- both copies of the itinerary editor and the printable route summary;
- the three trip forms.

Each source file of the core is one module. Common holds the shared helpers
(an `Option`, `filter`, `includes`, removal by index, ASCII case mapping).
Domain holds the records: trips, locations, expenses and user profiles.
Where the source mutates component or context state, the model is a class
whose fields are those state cells. Its methods state the new state in terms
of the old one. `forEach` accumulations are `while` loops proved against
recursive specification functions. Remote calls (the database, geocoding,
the identity directory) are parameters standing for their outcome:

- `Fetch` (a value, or a thrown error);
- `Completion`;
- `InsertAnswer`;
- `QueryAnswer`.

`Math.random()` is an index parameter limited to the range the source draws
from. Dates are whole numbers of milliseconds. Amounts, percentages and
coordinates are exact reals.

## Model

| member | source | states |
|---|---|---|
| Domain.TripExpenses | frontend/src/components/TripExpensesDetails.tsx:73-74 | no selected trip gives no expenses; a truthy id that the cache holds gives exactly the cached list; any non-empty result comes from the cache |
| Domain.TripTotal | frontend/src/components/TripExpensesDetails.tsx:78 | definition: the sum of the amounts, in order |
| Domain.ViewerId | frontend/src/components/TripExpensesCard.tsx:40 | definition: the signed-in user's id, or '' without one |
| Domain.TripTotalConcat | frontend/src/components/TripExpensesDetails.tsx:77-78 | the trip total of two expense lists joined is the sum of their totals |
| Domain.TripTotalIgnoresSharing | frontend/src/components/TripExpensesCard.tsx:32-34 | the trip total depends only on the amounts: lists with equal amounts have equal totals, whoever paid and however the expense is split |
| Domain.TripTotalNonNegative | frontend/src/components/TripExpensesDetails.tsx:77-78 | with non-negative amounts the trip total is non-negative |
| BalanceLabel.RoundHalfUp | frontend/src/components/TripExpensesDetails.tsx:103 | the result is the nearest whole number, with halves rounded up |
| BalanceLabel.Cents | frontend/src/components/TripExpensesDetails.tsx:103-105 | the two-decimal value, in cents: within half a cent of the amount, with the amount's sign |
| BalanceLabel.LabelFor | frontend/src/components/TripExpensesDetails.tsx:216-220 | "You owe" iff the total is at least half a cent, "People owe you" iff it is at most minus half a cent, otherwise "All settled"; the amount shown is within half a cent of the magnitude |
| BalanceLabel.LabelOfWholeCents | frontend/src/components/TripExpensesCard.tsx:80-84 | for a total that is a whole number of cents, the label follows its exact sign and amount |
| TripExpensesDetails.ShareOf | frontend/src/components/TripExpensesDetails.tsx:80-81 | the viewer's percentage is 0 when the map has no entry for the viewer; a non-zero value is the value of an entry under the viewer's id (the exact value is stated by ShareOfFirstEntry) |
| TripExpensesDetails.ShareOfFirstEntry | frontend/src/components/TripExpensesDetails.tsx:81 | with an entry under the viewer's id, the percentage is the value of the first such entry |
| TripExpensesDetails.PercentEntries | frontend/src/components/TripExpensesDetails.tsx:80 | definition: the expense's percentage entries, or none when it has no map |
| TripExpensesDetails.OthersPercent | frontend/src/components/TripExpensesDetails.tsx:88-93 | definition: the sum of the percentages of the entries whose key is not the viewer |
| TripExpensesDetails.OthersOwe | frontend/src/components/TripExpensesDetails.tsx:88-93 | definition: the filter-and-reduce of amount × percent / 100 over the other entries |
| TripExpensesDetails.Contribution | frontend/src/components/TripExpensesDetails.tsx:80-98 | definition: the change one expense makes to the owed total, minus the others' shares for the payer, the viewer's share otherwise |
| TripExpensesDetails.TotalOwed | frontend/src/components/TripExpensesDetails.tsx:77-100 | definition: the owed total, accumulated over the expenses in order |
| TripExpensesDetails.TotalSpent | frontend/src/components/TripExpensesDetails.tsx:84-85 | definition: the sum of the amounts of the expenses the viewer paid |
| TripExpensesDetails.PaidBy | frontend/src/components/TripExpensesDetails.tsx:84-85 | definition: the `filter` of the expenses the viewer paid, in order |
| TripExpensesDetails.OwedLine | frontend/src/components/TripExpensesDetails.tsx:216-220 | definition: the label of the owed total |
| TripExpensesDetails.OthersOweIsOthersShare | frontend/src/components/TripExpensesDetails.tsx:88-93 | the filter-and-reduce over the other entries equals the amount times the others' combined percentage, over 100 |
| TripExpensesDetails.CalculateBalances | frontend/src/components/TripExpensesDetails.tsx:68-107 | the loop's three totals are the owed, spent and trip totals of the selected trip's expenses |
| TripExpensesDetails.TotalSpentIsTotalOfPaid | frontend/src/components/TripExpensesDetails.tsx:84-85 | the spent total is the trip total of exactly the expenses the viewer paid |
| TripExpensesDetails.PayerIsOwedOthersShares | frontend/src/components/TripExpensesDetails.tsx:84-95 | an expense the viewer paid lowers the owed total by the amount times the others' combined percentage, over 100 |
| TripExpensesDetails.PayerOwnShareIgnored | frontend/src/components/TripExpensesDetails.tsx:88-89 | adding an entry for the payer to the map leaves the payer's contribution unchanged |
| TripExpensesDetails.NonPayerOwesOwnShare | frontend/src/components/TripExpensesDetails.tsx:80-82 | an expense someone else paid raises the owed total by the viewer's percentage of its amount, and by 0 with no map or no entry for the viewer |
| TripExpensesDetails.NoPercentagesOweNothing | frontend/src/components/TripExpensesDetails.tsx:80-98 | expenses without a percentage map leave the owed total at 0 |
| TripExpensesDetails.PayerOfEverythingNeverOwes | frontend/src/components/TripExpensesDetails.tsx:84-95 | a viewer who paid every expense, with non-negative amounts and percentages, has an owed total of at most 0 |
| TripExpensesDetails.UninvolvedViewer | frontend/src/components/TripExpensesDetails.tsx:80-98 | a viewer who paid nothing and holds no percentage entry owes 0 and spent 0 |
| TripExpensesDetails.SettledExample | frontend/src/components/TripExpensesDetails.tsx:77-99 | A = 100 paid by u1 at {u1: 50, u2: 50} and B = 50 paid by u2 at {u1: 100} give u1 spent 100, trip 150, owed 0 and "All settled" |
| TripExpensesDetails.FindUser | frontend/src/components/TripExpensesDetails.tsx:55-59 | the first directory entry with the id, or the Unknown placeholder exactly when there is no directory or no entry has the id |
| TripExpensesDetails.FindIn | frontend/src/components/TripExpensesDetails.tsx:56 | the `find` over a present directory: the earliest entry with the id, or none exactly when no entry has it |
| TripExpensesDetails.Capitalize | frontend/src/components/TripExpensesDetails.tsx:61-63 | a non-empty name gets its first character upper-cased and the rest kept; a null or empty name gives undefined |
| TripExpensesDetails.CapitalizeIdempotent | frontend/src/components/TripExpensesDetails.tsx:61-63 | for a name that capitalises to a value, capitalising twice is capitalising once |
| TripExpensesCard.CalculateBalances | frontend/src/components/TripExpensesCard.tsx:24-54 | the loop's three totals are the equal-split owed, spent and trip totals of the selected trip's expenses |
| TripExpensesCard.InSplit | frontend/src/components/TripExpensesCard.tsx:40 | definition: the viewer's id, or '', is an entry of the split |
| TripExpensesCard.PaidByViewer | frontend/src/components/TripExpensesCard.tsx:36 | definition: a signed-in viewer paid the expense |
| TripExpensesCard.Contribution | frontend/src/components/TripExpensesCard.tsx:33-45 | definition: the change one expense makes to the owed total under equal split |
| TripExpensesCard.TotalOwed | frontend/src/components/TripExpensesCard.tsx:32-47 | definition: the owed total, accumulated over the expenses in order |
| TripExpensesCard.TotalSpent | frontend/src/components/TripExpensesCard.tsx:36-38 | definition: the sum of the amounts of the expenses the viewer paid |
| TripExpensesCard.OwedLine | frontend/src/components/TripExpensesCard.tsx:80-84 | definition: the label of the owed total |
| TripExpensesCard.OutsideEverySplitOwesNothing | frontend/src/components/TripExpensesCard.tsx:40 | expenses whose split lacks the viewer leave the owed total at 0, even those the viewer paid |
| TripExpensesCard.SplitShares | frontend/src/components/TripExpensesCard.tsx:33-45 | the split holds at least one id wherever the share is formed; a payer in the split is credited amount·(n−1)/n, and a non-payer in it owes one n-th |
| TripExpensesCard.NonPayerShare | frontend/src/components/TripExpensesCard.tsx:43-44 | a split member who did not pay owes exactly amount / n |
| TripExpensesCard.PayerOfEverythingNeverOwes | frontend/src/components/TripExpensesCard.tsx:40-42 | a viewer who paid every expense, with non-negative amounts, has an owed total of at most 0 |
| TripExpensesCard.OwedAcrossTally | frontend/src/components/TripExpensesCard.tsx:33-45 | summed over viewers in the split, the contributions are the payer's credit once per occurrence of the payer and one share per other entry |
| TripExpensesCard.OwedAcross | frontend/src/components/TripExpensesCard.tsx:33-45 | definition: the contributions of one expense summed over a list of viewers |
| TripExpensesCard.ZeroSumOverSplit | frontend/src/components/TripExpensesCard.tsx:33-45 | for a split without repeated ids that holds the payer, the contributions of all split members sum to 0 |
| TripExpensesCard.RepeatedPayerBreaksZeroSum | frontend/src/components/TripExpensesCard.tsx:33-45 | with the payer listed twice (90 split [p, p, q] paid by p), the contributions sum to −90, not 0 |
| TripList.Step | frontend/src/components/TripList.tsx:66-69 | a right move goes to i+1 or the last index, whichever is smaller; a left move goes to i−1 or 0, whichever is larger |
| TripList.TripAt | frontend/src/components/TripList.tsx:80 | `trips[j]`: the trip at j inside the list, undefined outside it |
| TripList.StepStaysInRange | frontend/src/components/TripList.tsx:66-69 | from an index inside a non-empty list a move stays inside it, and there is no wrap-around at either end |
| TripList.RightMovesFromStart | frontend/src/components/TripList.tsx:66-69 | from the first card, k right moves reach card min(k, len−1) |
| TripList.RightMovesReachEnd | frontend/src/components/TripList.tsx:66-78 | from any card, enough right moves reach the last card, and further moves stay there |
| TripList.RightMovesApproach | frontend/src/components/TripList.tsx:66-69 | fewer right moves than cards remaining advance one card per move |
| TripList.StaleIndexMovesOutsideList | frontend/src/components/TripList.tsx:66-80 | an index left over from a longer list (3 in a list of one) moves left to 2, where no trip is selected |
| TripList.Moves | frontend/src/components/TripList.tsx:66-69 | definition: the index after k clicks of the same arrow |
| TripList.Carousel.constructor | frontend/src/components/TripList.tsx:34-36 | index 0 and both arrows hidden |
| TripList.Carousel.TripsChanged | frontend/src/components/TripList.tsx:56-60 | the right arrow is switched on once there is more than one trip, and never switched off; nothing else changes |
| TripList.Carousel.ScrollToCard | frontend/src/components/TripList.tsx:62-82 | with no container or first card nothing changes; otherwise the index takes one step, the arrows show exactly when a move that way is possible, and the store selects the trip at the new index |
| LegacyTripList.WithoutTrip | src/components/TripList.tsx:91 | the result holds exactly the trips of the list whose id differs from the deleted one |
| LegacyTripList.WithoutTripConcat | src/components/TripList.tsx:91 | deleting keeps the other trips in order: deleting from a concatenation deletes from each part |
| LegacyTripList.WithoutTripIdempotent | src/components/TripList.tsx:91 | deleting twice is deleting once, and deleting an unlisted id changes nothing |
| LegacyTripList.OwnerCarousel.constructor | src/components/TripList.tsx:32-37 | no trips, loading, no error, index 0, left arrow hidden, right arrow shown |
| LegacyTripList.OwnerCarousel.LoadTrips | src/components/TripList.tsx:41-58 | with no user only loading ends; a successful read replaces the list and reports its first trip if there is one; a thrown read records "Error fetching trips"; loading ends in every case |
| LegacyTripList.OwnerCarousel.ScrollToCard | src/components/TripList.tsx:63-83 | the same move and flag rule as the newer carousel, with the trip at the new index reported to the parent |
| LegacyTripList.OwnerCarousel.HandleDelete | src/components/TripList.tsx:85-97 | only a delete that reports no error removes the trips with that id; an error or a throw leaves the list as it was |
| TripContext.CombineTrips | frontend/src/context/TripContext.tsx:94-100 | the owned trips form the prefix, in order; the rest are exactly the shared trips whose id no owned trip has |
| TripContext.HasId | frontend/src/context/TripContext.tsx:98 | definition: `some` trip of the list has the id |
| TripContext.CombinedIdsFromInputs | frontend/src/context/TripContext.tsx:94-100 | every id in the combined list is the id of an owned or a shared trip |
| TripContext.InputIdsCombined | frontend/src/context/TripContext.tsx:94-100 | every id of an owned or a shared trip is in the combined list |
| TripContext.CombinedIds | frontend/src/context/TripContext.tsx:94-100 | the combined ids are exactly the union of the owned and the shared ids |
| TripContext.SharedPartAvoidsOwnedIds | frontend/src/context/TripContext.tsx:96-99 | no trip taken from the shared list has the id of an owned trip |
| TripContext.CombinedDistinctIds | frontend/src/context/TripContext.tsx:94-100 | if both inputs have distinct ids, so does the combined list |
| TripContext.SharedOwnTripsAddNothing | frontend/src/context/TripContext.tsx:96-99 | if every shared trip is also owned, the combined list is the owned list |
| TripContext.DisjointListsConcatenate | frontend/src/context/TripContext.tsx:94-100 | if no shared id is owned, the combined list is both lists in full |
| TripContext.FirstTrip | frontend/src/context/TripContext.tsx:103-107 | the first trip of the list, or none exactly when the list is empty |
| TripContext.TripStore.constructor | frontend/src/context/TripContext.tsx:78-79 | no trips, none selected, not loading |
| TripContext.TripStore.GetAllTrips | frontend/src/context/TripContext.tsx:82-109 | with no user nothing changes; a thrown read leaves the lists as they were and loading set; otherwise the trips become the combination, the first is selected, and loading ends |
| TripContext.TripStore.UpdateTripList | frontend/src/context/TripContext.tsx:115-117 | one trip is appended and nothing else changes |
| TripContext.TripStore.RefreshAfterWrite | frontend/src/context/TripContext.tsx:128-149 | `updateTrip`, `deleteTrip` and `updateTripSharedUsers`: after a completed write the state is what the refresh leaves, the combined lists with the first trip selected; a rejected write changes nothing, which only `updateTripSharedUsers` can meet, because the services behind the other two catch their failures and resolve, so their refresh always runs |
| TripContext.TripStore.AddTrip | frontend/src/context/TripContext.tsx:119-126 | without a user nothing changes; otherwise the state is what the refresh leaves, whether or not the save succeeded, because `saveTrip` catches its failures and resolves |
| TripContext.TripStore.SetSelectedTrip | frontend/src/components/TripList.tsx:80 | the selected trip becomes the given one; nothing else changes |
| NotificationContext.MarkRead | frontend/src/context/NotificationContext.tsx:58-62 | the same length and order; each notification the argument matches is marked read, and every other one is unchanged |
| NotificationContext.Matches | frontend/src/context/NotificationContext.tsx:59 | definition: the argument is an id equal to the notification's id |
| NotificationContext.MarkReadIdempotent | frontend/src/context/NotificationContext.tsx:60-61 | marking twice with the same argument is marking once |
| NotificationContext.ObjectArgumentMarksNothing | frontend/src/context/NotificationContext.tsx:60 | handed a notification object instead of an id, the patch changes nothing |
| NotificationContext.FetchResult | frontend/src/context/NotificationContext.tsx:37-49 | with no user, or a thrown fetch, the list is kept |
| NotificationContext.FetchReplacesList | frontend/src/context/NotificationContext.tsx:40-45 | with a user and a fetch that resolves, the list becomes the fetched rows, or [] for null, whatever it held before |
| NotificationContext.ImportedFetchAsWritten | frontend/src/context/NotificationContext.tsx:3 | the imported name has no export behind it, so every call throws |
| NotificationContext.AsWrittenFetchNeverUpdates | frontend/src/context/NotificationContext.tsx:37-49 | as written, the fetch effect never changes the list |
| NotificationContext.NotificationProvider.constructor | frontend/src/context/NotificationContext.tsx:33 | the list starts empty |
| NotificationContext.NotificationProvider.FetchUserNotifications | frontend/src/context/NotificationContext.tsx:37-49 | the list becomes the fetch result |
| NotificationContext.NotificationProvider.MarkNotificationAsRead | frontend/src/context/NotificationContext.tsx:54-67 | only after the remote update completes is the list patched; a throw leaves it unchanged |
| NotificationsView.UnreadCount | frontend/src/components/Notifications.tsx:14 | the count is at most the number of notifications |
| NotificationsView.UnreadCountIsFilterLength | frontend/src/components/Notifications.tsx:14 | the count is the length of the unread filter |
| NotificationsView.NoUnreadIffAllRead | frontend/src/components/Notifications.tsx:14 | the count is 0 exactly when every notification is read |
| NotificationsView.BadgeIffSomeUnread | frontend/src/components/Notifications.tsx:21-25 | the badge shows exactly when some notification is unread |
| NotificationsView.ShowsBadge | frontend/src/components/Notifications.tsx:22-26 | definition: the badge shows when the unread count is positive |
| NotificationsView.ShowsEmptyText | frontend/src/components/Notifications.tsx:32-35 | definition: "No new notifications" shows for an empty list |
| NotificationsView.ShowsControls | frontend/src/components/Notifications.tsx:56 | definition: Accept and Decline show for an unread notification |
| NotificationsView.TripIconRed | frontend/src/components/Notifications.tsx:43-47 | definition: the trip icon is red when the trip id is absent or empty |
| NotificationsView.ControlArgumentAsWritten | frontend/src/components/Notifications.tsx:63 | what the controls pass never matches any notification's id test |
| NotificationsView.ControlArgument | frontend/src/context/NotificationContext.tsx:20 | passing the id matches the notification itself |
| NotificationsView.MarkReadNeverRaisesUnread | frontend/src/components/Notifications.tsx:14 | marking never raises the unread count |
| NotificationsView.MarkingUnreadLowersCount | frontend/src/components/Notifications.tsx:14 | marking an unread notification by its id lowers the unread count |
| NotificationsView.AsWrittenControlsChangeNothing | frontend/src/components/Notifications.tsx:56-78 | as wired, Accept and Decline leave the list as it was |
| NotificationsView.ControlMarksItsNotification | frontend/src/components/Notifications.tsx:56-78 | passing the id, a pressed control marks its notification read, hides its controls and lowers the badge count |
| NotificationService.BuildRows | frontend/src/lib/notification-service.ts:20-24 | one row per user id, in order, each with the given trip id and message |
| NotificationService.BuildRowsConcat | frontend/src/lib/notification-service.ts:20-24 | the rows for two runs of users are each run's rows in turn |
| NotificationService.ShareOutcome | frontend/src/lib/notification-service.ts:31-41 | success exactly when the insert reports no error; an insert error carries its message; a throw gives "Unexpected error occurred" |
| NotificationService.AddNotificationsForTripShare | frontend/src/lib/notification-service.ts:12-42 | the batch is exactly one row per id in order; the result reports success iff the insert succeeded, and an error otherwise; every answer yields a result, so nothing escapes |
| ShareTripForm.FilteredUsers | frontend/src/components/ShareTripForm.tsx:51-57 | absent iff the directory is absent; otherwise exactly the directory users other than the viewer whose first name, last name or e-mail contains the query, ignoring ASCII case |
| ShareTripForm.FilteredKeepsOrder | frontend/src/components/ShareTripForm.tsx:51-57 | the filter keeps directory order across any split of the directory |
| ShareTripForm.EmptyQueryListsEveryone | frontend/src/components/ShareTripForm.tsx:54-56 | an empty query lists every other user with a non-null name or e-mail field |
| ShareTripForm.NullFieldsNeverListed | frontend/src/components/ShareTripForm.tsx:54-56 | a user whose three fields are null is never listed |
| ShareTripForm.FieldMatches | frontend/src/components/ShareTripForm.tsx:54-56 | definition: a non-null field contains the query, ignoring ASCII case |
| ShareTripForm.Listed | frontend/src/components/ShareTripForm.tsx:52-56 | definition: another user than the viewer, with a field matching the query |
| ShareTripForm.ShareDisabled | frontend/src/components/ShareTripForm.tsx:207-211 | definition: nothing new is selected |
| ShareTripForm.InDirectory | frontend/src/components/ShareTripForm.tsx:201 | definition: the directory has a user with the id |
| ShareTripForm.Toggled | frontend/src/components/ShareTripForm.tsx:59-67 | a pre-selected id changes nothing; an unselected id is appended at the end; a selected id is removed with every copy, the others kept in order; no other id's membership changes |
| ShareTripForm.ToggleTwice | frontend/src/components/ShareTripForm.tsx:59-67 | toggling twice restores membership, and restores the list exactly for an id that was not selected |
| ShareTripForm.NewInvitees | frontend/src/components/ShareTripForm.tsx:207-211 | exactly the selected ids that are not pre-selected |
| ShareTripForm.DisabledIffNothingNew | frontend/src/components/ShareTripForm.tsx:207-211 | the share button is disabled iff every selected id is pre-selected |
| ShareTripForm.SentIds | frontend/src/components/ShareTripForm.tsx:199-205 | exactly the selected ids that have a directory entry; none without a directory |
| ShareTripForm.SentIdsConcat | frontend/src/components/ShareTripForm.tsx:199-205 | the sent ids keep the selection's order: two runs of the selection send each run's ids in turn |
| ShareTripForm.AllFoundAllSent | frontend/src/components/ShareTripForm.tsx:199-205 | when every selected id has a directory entry, exactly the selection is sent, in order |
| ShareTripForm.PreSelectedAreResent | frontend/src/components/ShareTripForm.tsx:199-205 | every selected id with a directory entry is sent, including pre-selected ones |
| ShareTripForm.ShareMessage | frontend/src/components/ShareTripForm.tsx:74 | the fixed invitation prefix followed by exactly the trip name |
| ShareTripForm.ShareDialog.constructor | frontend/src/components/ShareTripForm.tsx:29-34 | nothing selected or pre-selected; the dialog is closed |
| ShareTripForm.ShareDialog.LoadPreSelected | frontend/src/components/ShareTripForm.tsx:36-49 | a successful read sets the selected and pre-selected ids to the invited ids; a throw changes nothing |
| ShareTripForm.ShareDialog.ToggleUserSelection | frontend/src/components/ShareTripForm.tsx:59-67 | the selection becomes the toggled selection; the pre-selected ids stay |
| ShareTripForm.ShareDialog.ShareTrip | frontend/src/components/ShareTripForm.tsx:70-91 | invites the sent ids with the trip's id and message, and closes the dialog whatever the result |
| ExpensesService.ToExpense | frontend/src/lib/expenses-serivce.ts:62-74 | every field copied from the row, with the trip name taken from the joined trip |
| ExpensesService.MapRows | frontend/src/lib/expenses-serivce.ts:62-74 | defined iff every row has a joined trip; then one record per row, in order |
| ExpensesService.FetchExpensesForTrip | frontend/src/lib/expenses-serivce.ts:45-81 | an empty id gives {}; an error or an unmappable row gives "Failed to fetch expenses"; any other read has exactly the one key `tripId` |
| ExpensesService.FetchedRecordsFollowRows | frontend/src/lib/expenses-serivce.ts:62-76 | a successful read lists one record per row in order, each carrying its joined trip name, and lists none for a null answer |
| ExpensesService.OneMissingJoinFailsRead | frontend/src/lib/expenses-serivce.ts:62-80 | one row without a joined trip fails the whole read |
| ExpensesService.AddExpenseToast | frontend/src/lib/expenses-serivce.ts:27-43 | the call returns on every answer; the success toast shows iff the insert reports no error |
| ExpensesContext.Merge | frontend/src/context/ExpensesContext.tsx:50 | the keys of both maps; the result's keys override and the others keep their lists |
| ExpensesContext.FetchTouchesOneTrip | frontend/src/context/ExpensesContext.tsx:45-56 | a successful read changes the fetched trip's entry alone, which becomes the fresh list |
| ExpensesContext.MergeIdempotent | frontend/src/context/ExpensesContext.tsx:50 | merging the same result twice is merging it once |
| ExpensesContext.ExpenseProvider.constructor | frontend/src/context/ExpensesContext.tsx:38-41 | an empty cache, counter 0, loading, no error |
| ExpensesContext.ExpenseProvider.BeginFetch | frontend/src/context/ExpensesContext.tsx:47-48 | loading is set and the error cleared; the cache and counter stay |
| ExpensesContext.ExpenseProvider.FinishFetch | frontend/src/context/ExpensesContext.tsx:49-55 | a successful read is merged in; a failure keeps the cache and records "Failed to fetch expenses"; loading ends |
| ExpensesContext.ExpenseProvider.FetchExpenses | frontend/src/context/ExpensesContext.tsx:45-56 | the read's result merged into the cache with no error, or the cache kept with the failure message; loading ends in every case |
| ExpensesContext.ExpenseProvider.HandleRefresh | frontend/src/context/ExpensesContext.tsx:58-60 | the counter grows by exactly one; nothing else changes |
| ExpensesContext.ExpenseProvider.SelectionChanged | frontend/src/context/ExpensesContext.tsx:62-68 | a truthy trip id is read; anything else empties the cache |
| TripExpenseForm.SchemaIssues | frontend/src/components/TripExpenseForm.tsx:46-58 | each of the five rules is reported exactly when it is broken |
| TripExpenseForm.ValidIff | frontend/src/components/TripExpenseForm.tsx:46-58 | the schema accepts exactly a non-empty name, a positive amount, one of the five types, a non-empty payer and a non-empty split |
| TripExpenseForm.Valid | frontend/src/components/TripExpenseForm.tsx:46-58 | definition: the schema reports no issue |
| TripExpenseForm.DefaultsRejected | frontend/src/components/TripExpenseForm.tsx:76-82 | the untouched form fails on the name, the amount, the payer and the split |
| TripExpenseForm.TrimSpec | frontend/src/components/TripExpenseForm.tsx:96-100 | the trimmed display name has no white space at either end and is a contiguous piece of the untrimmed one |
| TripExpenseForm.Trim | frontend/src/components/TripExpenseForm.tsx:98 | definition: white space stripped at the start and then at the end |
| TripExpenseForm.IsSpace | frontend/src/components/TripExpenseForm.tsx:98 | definition: an ASCII white-space character |
| TripExpenseForm.TrimStart | frontend/src/components/TripExpenseForm.tsx:98 | definition: leading white space stripped |
| TripExpenseForm.TrimEnd | frontend/src/components/TripExpenseForm.tsx:98 | definition: trailing white space stripped |
| TripExpenseForm.TrimStartSpec | frontend/src/components/TripExpenseForm.tsx:98 | the result is a suffix of the text, what was stripped is all white space, and the result does not start with white space |
| TripExpenseForm.TrimEndSpec | frontend/src/components/TripExpenseForm.tsx:98 | the result is a prefix of the text, what was stripped is all white space, and the result does not end with white space |
| TripExpenseForm.DisplayName | frontend/src/components/TripExpenseForm.tsx:98 | definition: first name (or "null"), a space and last name (or ""), trimmed |
| TripExpenseForm.ToParticipant | frontend/src/components/TripExpenseForm.tsx:96-100 | definition: id, display name and image URL (or "") |
| TripExpenseForm.OnTrip | frontend/src/components/TripExpenseForm.tsx:87-92 | definition: a shared user of the trip or its owner |
| TripExpenseForm.Offered | frontend/src/components/TripExpenseForm.tsx:91-100 | the user as a participant exactly when on the trip, nothing otherwise |
| TripExpenseForm.ParticipantsOf | frontend/src/components/TripExpenseForm.tsx:85-104 | at most one participant per directory user |
| TripExpenseForm.ParticipantsOnTrip | frontend/src/components/TripExpenseForm.tsx:87-93 | every participant is the trip's owner or one of its shared users |
| TripExpenseForm.ParticipantsCoverTrip | frontend/src/components/TripExpenseForm.tsx:87-100 | every directory user on the trip is a participant |
| TripExpenseForm.ParticipantsConcat | frontend/src/components/TripExpenseForm.tsx:87-100 | participants keep directory order across any split of the directory |
| TripExpenseForm.ParticipantsAfter | frontend/src/components/TripExpenseForm.tsx:85-104 | with no trip the list is kept; with no directory it is empty; otherwise it is the trip's participants |
| TripExpenseForm.SplitAfterPayerChange | frontend/src/components/TripExpenseForm.tsx:206-220 | the split without any copy of the previous payer, then the new payer |
| TripExpenseForm.PayerChangeKeepsOthers | frontend/src/components/TripExpenseForm.tsx:207-218 | the new split is non-empty, ends with the new payer, keeps every other member and drops the old payer |
| TripExpenseForm.PayerChangeCanDuplicate | frontend/src/components/TripExpenseForm.tsx:207-218 | a new payer already in the split appears twice: ["a", "b"] with "a" replaced by "b" gives ["b", "b"] |
| TripExpenseForm.SplitAfterCheckbox | frontend/src/components/TripExpenseForm.tsx:267-276 | checking appends the id; unchecking removes every copy and keeps all other members |
| TripExpenseForm.PayerStaysInSplit | frontend/src/components/TripExpenseForm.tsx:206-276 | choosing a payer puts the payer in the split, and the enabled checkboxes cannot take the payer out |
| TripExpenseForm.CheckboxDisabled | frontend/src/components/TripExpenseForm.tsx:267 | definition: the payer's checkbox is disabled |
| TripExpenseForm.ExpenseRecord | frontend/src/components/TripExpenseForm.tsx:112-119 | the record copies the trip id and the five form fields, and never carries percentages |
| TripExpenseForm.FormExpenseShowsNoDebt | frontend/src/components/TripExpenseForm.tsx:112-119 | for a form-made expense of 90 split [p, q] and paid by p, the detailed view says q owes 0 and the card says 45 |
| TripExpenseForm.EqualShares | frontend/src/components/TripExpensesCard.tsx:33 | the map gives every split entry 100/n percent |
| TripExpenseForm.CorrectedExpenseRecord | frontend/src/lib/expenses-serivce.ts:4-12 | the form's record with the equal-share percentage map filled in |
| TripExpenseForm.ShareOfUniform | frontend/src/components/TripExpensesDetails.tsx:81 | under a uniform map, every listed id holds the common percentage |
| TripExpenseForm.OthersPercentOfUniform | frontend/src/components/TripExpensesDetails.tsx:88-93 | under a uniform map, the others' percentage is the common value once per entry that is not the viewer |
| TripExpenseForm.EqualSharesAgreeWithCard | frontend/src/components/TripExpensesDetails.tsx:80-98 | with the equal-share map and a split without repeated ids that holds the payer, the detailed view charges each member exactly what the card charges |
| TripExpenseForm.NonPayerAgrees | frontend/src/components/TripExpensesDetails.tsx:96-98 | a split member who did not pay and holds the 100/n entry owes in the detailed view exactly the card's share |
| TripExpenseForm.PayerAgrees | frontend/src/components/TripExpensesDetails.tsx:84-95 | under a uniform 100/n map on a split without repeated ids, the payer is credited in the detailed view exactly what the card credits |
| TripExpenseForm.ExpenseForm.constructor | frontend/src/components/TripExpenseForm.tsx:67-82 | the default values and no participants |
| TripExpenseForm.ExpenseForm.TripOrUsersChanged | frontend/src/components/TripExpenseForm.tsx:85-104 | the participants follow the selected trip and the directory; the values stay |
| TripExpenseForm.ExpenseForm.PayerChanged | frontend/src/components/TripExpenseForm.tsx:206-220 | the payer is the chosen one and the split is the payer-change split |
| TripExpenseForm.ExpenseForm.CheckboxChanged | frontend/src/components/TripExpenseForm.tsx:267-276 | the split is the checkbox-change split; everything else stays |
| TripExpenseForm.ExpenseForm.OnSubmit | frontend/src/components/TripExpenseForm.tsx:106-126 | called, as `handleSubmit` does, only on values the schema accepts: with no trip nothing is sent and nothing changes; otherwise the form's record is sent, the form is reset and the cache's refresh counter grows by one |
| GoogleMap.FirstOwnPlace | frontend/src/components/GoogleMap.tsx:212 | the index of the user's first place, or none exactly when there is no user or no place of theirs |
| GoogleMap.LocationName | frontend/src/lib/common-utils.ts:41-58 | the first result's address; "Unknown location" for no result or any failure |
| GoogleMap.RemoveOffered | frontend/src/components/GoogleMap.tsx:369 | definition: the remove control shows for the signed-in user's own places |
| GoogleMap.IsPick | frontend/src/components/GoogleMap.tsx:191 | definition: an index the random draw can produce, 0 to 9 |
| GoogleMap.PinColorFor | frontend/src/components/GoogleMap.tsx:211-214 | the colour of the user's first place when that colour is non-empty; in every case the drawn palette entry or a colour of one of the trip's places, never empty |
| GoogleMap.OwnColourSurvivesAppends | frontend/src/components/GoogleMap.tsx:212 | places appended later never change which place gives the user's colour |
| GoogleMap.FirstAddedColourIsReused | frontend/src/components/GoogleMap.tsx:248-257 | a user's first place, added with colour c, gives c back when the trip is selected again, whatever is drawn |
| GoogleMap.RemoveUndoesAdd | frontend/src/components/GoogleMap.tsx:369-381 | removing the place just added restores the earlier list |
| GoogleMap.ItineraryEditor.constructor | frontend/src/components/GoogleMap.tsx:180-194 | no places, a palette colour, no save offered |
| GoogleMap.ItineraryEditor.TripSelected | frontend/src/components/GoogleMap.tsx:206-215 | the places are the trip's locations, or none; the pin colour is the chosen one; the save flag stays |
| GoogleMap.ItineraryEditor.AddMarker | frontend/src/components/GoogleMap.tsx:231-260 | with no place nothing changes; otherwise exactly one place is appended, named by the lookup ("Unknown location" when it fails or finds nothing), with the user id and pin colour, and saving is offered |
| GoogleMap.ItineraryEditor.Remove | frontend/src/components/GoogleMap.tsx:369-381 | for a place of the signed-in user, exactly that entry is removed and saving is offered |
| GoogleMap.ItineraryEditor.Save | frontend/src/components/GoogleMap.tsx:262-275 | with no trip nothing is written; otherwise the whole list is written for the trip, and only a completed write clears the flag |
| LegacyGoogleMap.RemoveKeepsOthers | src/components/GoogleMap.tsx:378-388 | removing an entry keeps exactly the other entries |
| LegacyGoogleMap.LegacyItineraryEditor.constructor | src/components/GoogleMap.tsx:174-183 | no places and no save offered |
| LegacyGoogleMap.LegacyItineraryEditor.TripChanged | src/components/GoogleMap.tsx:197-200 | the places are the trip's locations, or none |
| LegacyGoogleMap.LegacyItineraryEditor.AddMarker | src/components/GoogleMap.tsx:242-270 | with no place, or when the name call throws, nothing changes; otherwise exactly one place, named by that call's result, is appended and saving is offered. The imported `getLocationName` has no export behind it in this tree, so the name is a parameter |
| LegacyGoogleMap.LegacyItineraryEditor.Remove | src/components/GoogleMap.tsx:378-388 | any entry can be removed; exactly that entry goes and saving is offered |
| LegacyGoogleMap.LegacyItineraryEditor.Save | src/components/GoogleMap.tsx:273-282 | with no trip the handler fails before writing and the flag stays; otherwise the list is written and only a completed write clears the flag |
| TripItineraryPrint.Waypoints | frontend/src/components/TripItenaryPrint.tsx:21-24 | n−2 waypoints: the places strictly between the first and the last, in order, each a stopover |
| TripItineraryPrint.At | frontend/src/components/TripItenaryPrint.tsx:22 | definition: a place's coordinates |
| TripItineraryPrint.RequestFor | frontend/src/components/TripItenaryPrint.tsx:14-52 | a request is made iff a trip is selected with at least two places; it runs from the first place to the last through the waypoints |
| TripItineraryPrint.RequestVisitsEveryPlace | frontend/src/components/TripItenaryPrint.tsx:21-38 | origin, waypoints and destination, in that order, are exactly the trip's places |
| TripItineraryPrint.TotalsConcat | frontend/src/components/TripItenaryPrint.tsx:66-68 | the duration and distance totals add up over joined leg lists |
| TripItineraryPrint.MissingValuesAddNothing | frontend/src/components/TripItenaryPrint.tsx:67 | a leg with no duration adds no time, and one with no distance adds no distance |
| TripItineraryPrint.TotalSeconds | frontend/src/components/TripItenaryPrint.tsx:67 | definition: the sum of the leg durations, 0 for a missing one |
| TripItineraryPrint.ValueOr0 | frontend/src/components/TripItenaryPrint.tsx:67 | definition: a leg's value, or 0 when it is missing |
| TripItineraryPrint.TotalMeters | frontend/src/components/TripItenaryPrint.tsx:107-109 | definition: the sum of the leg distances, 0 for a missing one |
| TripItineraryPrint.TotalMinutes | frontend/src/components/TripItenaryPrint.tsx:66-68 | definition: the total seconds over 60 |
| TripItineraryPrint.Hours | frontend/src/components/TripItenaryPrint.tsx:70 | the whole hours in the total minutes |
| TripItineraryPrint.DisplayedMinutes | frontend/src/components/TripItenaryPrint.tsx:71 | the remainder rounded lies in 0..60, and hours and minutes together are within half a minute of the total |
| TripItineraryPrint.SixtyMinutesShown | frontend/src/components/TripItenaryPrint.tsx:70-71 | a 3599-second route is shown as 0 hours and 60 minutes |
| TripItineraryPrint.Duration | frontend/src/components/TripItenaryPrint.tsx:70-71 | minutes below 60, with hours and minutes together within half a minute of the total |
| TripItineraryPrint.DurationAgreesBelowSixty | frontend/src/components/TripItenaryPrint.tsx:70-71 | when the displayed minutes are below 60, the corrected split is the displayed one |
| TripItineraryPrint.TotalKm | frontend/src/components/TripItenaryPrint.tsx:107-110 | kilometres times 1000 is the metre total |
| TripItineraryPrint.UnitWord | frontend/src/components/TripItenaryPrint.tsx:117-118 | "hour" and "minute" exactly when the count is 1, otherwise "hours" and "minutes" |
| TripForm.SchemaIssues | frontend/src/components/TripForm.tsx:24-38 | each rule (name length 2..50, non-empty country, both dates present, from ≤ to) is reported exactly when it is broken |
| TripForm.ValidIff | frontend/src/components/TripForm.tsx:24-38 | the schema accepts exactly a name of 2 to 50 characters, a non-empty country and two dates in order |
| TripForm.Valid | frontend/src/components/TripForm.tsx:24-38 | definition: the schema reports no issue |
| TripForm.Defaults | frontend/src/components/TripForm.tsx:64-71 | the edited trip's values, or an empty form whose range runs from now to ten days of 86 400 000 ms later |
| TripForm.EditDefaultsValid | frontend/src/components/TripForm.tsx:64-71 | the form prefilled from a trip that satisfied the rules passes the schema |
| TripForm.HandleSubmit | frontend/src/components/TripForm.tsx:75-110 | nothing is sent iff the schema rejects, or an update has no trip, or a create has no user; a create sends exactly the form's name, country and range; an update sends them for the trip's id |
| TripForm.SubmittedRequestsObeySchema | frontend/src/components/TripForm.tsx:24-38 | every request the form sends satisfies the schema's rules |
| LegacyTripForm.HandleSubmit | src/components/TripForm.tsx:74-139 | no write iff the schema rejects or the handler's guard fails; an insert carries the owner and image pick+1; an update writes only the three columns of the trip; the refresh runs iff a write succeeded |
| LegacyTripForm.InsertedRowsAreWellFormed | src/components/TripForm.tsx:81-87 | an inserted row is owned by the signed-in user, has an image id in 1..7 and satisfies the schema |
| LegacyTripForm.AgreesWithModernForm | src/components/TripForm.tsx:74-132 | the older form writes exactly when the newer one sends, with the same trip fields |
| EditTripForm.Defaults | src/components/EditTripForm.tsx:52-62 | the form starts from the trip's own values |
| EditTripForm.HandleSubmit | src/components/EditTripForm.tsx:64-90 | no write iff the schema rejects or no user is signed in; never an insert; the update writes the three columns of the trip's id |
| EditTripForm.SameUpdateAsTripForm | src/components/EditTripForm.tsx:70-78 | for a signed-in user the edit form writes what the older form's update handler writes |
| EditTripForm.UntouchedSubmitRewritesTrip | src/components/EditTripForm.tsx:52-78 | submitting the untouched form of a valid trip rewrites the trip's own values |
| Common.IncludesScan | frontend/src/components/ShareTripForm.tsx:54-56 | the scan is true exactly when the query occurs in the text as a contiguous piece |
| Common.Filter | frontend/src/context/TripContext.tsx:96-99 | the elements that pass, in order: a sub-list whose members are exactly the passing elements |
| Common.RemoveAll | frontend/src/components/ShareTripForm.tsx:64 | the value gone and every other member kept |
| Common.RemoveAt | frontend/src/components/GoogleMap.tsx:374-376 | one shorter: the entries before the index, then the entries after it |
| Common.Lower | frontend/src/components/ShareTripForm.tsx:54-56 | the same length, each character ASCII lower-cased |
| Common.LowerChar | frontend/src/components/ShareTripForm.tsx:54-56 | definition: ASCII lower-casing of one character |
| Common.UpperChar | frontend/src/components/TripExpensesDetails.tsx:62 | definition: ASCII upper-casing of one character |
| Common.Includes | frontend/src/components/ShareTripForm.tsx:54-56 | definition: the query occurs at some position of the text |

## Left out

- Floating point: amounts, percentages and coordinates are exact reals, and `toFixed(2)` is modelled as exact rounding to cents. IEEE double rounding is not modelled.
- Unicode: `toLowerCase`, `toUpperCase` and `trim` are modelled on ASCII letters and ASCII white space only. String lengths count characters, not UTF-16 code units.
- Rendering, DOM scrolling, the map widget, the map centre (geocoding of the country), toasts, alerts and console output are UI effects outside the model. `hasCard` in the carousels stands for the DOM test.
- React effect scheduling and async interleaving: each handler is one atomic step, and its remote call's outcome is a parameter.
- The trip store's wrappers `addTrip`, `updateTrip`, `deleteTrip` and `updateTripSharedUsers` write to the hosted store and then run the refresh `TripStore.GetAllTrips`. The model has the refresh and the write's completion; the rows written are not modelled. `saveTrip`, `updateTripByTripId` and `deleteTripById` catch every failure and resolve after a toast, so a failed save, update or delete is still followed by the refresh. Only `updateTripSharedUsersByTripId` rethrows, and only then is the refresh skipped. The newer carousel's delete calls `deleteTrip`. The backend routes and the identity and database clients are not part of this model.
- The server-side filter behind `fetchUnreadNotificationsByUserId` is not modelled. The notification list is whatever the store returns.
- `sharedusers || []`: a trip's shared users are always a list here. A trip row with a null `sharedusers` is not modelled.
- `form.reset()`, `setClose` and `closeForm` in the trip forms only touch the UI. The expense form's reset is modelled.
- TripExpenseForm.ExpenseForm.OnSubmit: sends the record as written, without a percentage map. The corrected record is stated beside it, not wired into the handler.
- Percentage maps are entry lists. A JavaScript object cannot hold a key twice, so maps with duplicate keys are outside the source's inputs. On them the model takes the first entry where an object would keep the last.
- The older map's `trip` prop is untyped. The model reads only its `id` and `locations`.
- Math.random: the pin colour and cover image draws are index parameters restricted to the drawn range. Their distribution is not modelled.
- Date objects: dates are whole numbers of milliseconds. `new Date(...)` of an invalid value is not modelled.
- TripForm.Defaults: `addDays(now, 10)` is modelled as ten days of 86 400 000 ms; across a daylight-saving change the local calendar date is an hour away from that.

## Findings

| source | as written | input that shows it | evidently intended | confidence | as-written member | corrected member |
|---|---|---|---|---|---|---|
| frontend/src/components/Notifications.tsx:63 | Accept and Decline call `markNotificationAsRead(notification, true)`, passing the notification object where the context expects its id | any unread notification, Accept pressed: the id test compares an id with an object, so nothing is marked and the controls stay | pass `notification.id` | not executed | NotificationsView.AsWrittenControlsChangeNothing | NotificationsView.ControlMarksItsNotification |
| frontend/src/context/NotificationContext.tsx:3 | imports `fetchNotificationsbyUserId`, which the notification service does not export | any signed-in user, any store answer: the call throws, so the list stays empty | import the exported `fetchUnreadNotificationsByUserId` | not executed | NotificationContext.AsWrittenFetchNeverUpdates | NotificationContext.FetchReplacesList |
| frontend/src/components/TripItenaryPrint.tsx:70-71 | hours are floored and the remaining minutes rounded separately | a route whose legs total 3599 seconds: "0 hours and 60 minutes" | round to whole minutes first, then split into hours and 0..59 minutes | not executed | TripItineraryPrint.SixtyMinutesShown | TripItineraryPrint.DurationAgreesBelowSixty |
| frontend/src/components/TripExpenseForm.tsx:112-119 | the submitted record has no `percentages`, although the request type declares them and the percentage-share view needs them | 90 split [p, q] paid by p, submitted by the form: the detailed view says q owes 0, while the card says q owes 45 | send equal shares of 100/n percent for the split | not executed | TripExpenseForm.FormExpenseShowsNoDebt | TripExpenseForm.EqualSharesAgreeWithCard |
