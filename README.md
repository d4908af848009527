# Poptato to-do lists: list state, paging and gesture trackers

A Dafny model of the state that sits behind the screens of the Poptato
Android to-do client:

- the **backlog view model**: an ordered backlog list with optimistic
  creation. A new item is shown at the front at once. The remote create then
  either commits the shown list into the single rollback slot `snapshotList`
  or restores the list from it. Swipe removal, drag reordering, deadline
  updates, text input and item selection are local transitions (module
  `Backlog`, over the list functions of module `Todo`);
- the **history view model**: paging behind a loading flag, reset to page 0
  on a new date, month navigation and the three-way calendar day icon
  (module `History`);
- the **main view model**: route to bottom-tab mapping, the selected item
  and its deadline (module `MainNav`);
- the **gesture trackers and callbacks** of the backlog and today screens:
  the per-row swipe-to-delete offset (left only on the backlog, right only
  on today; 200 px threshold), the long-press drag session with its
  auto-scroll job, the text field's submit and clear rules, the deadline
  label, the checkbox and the empty/non-empty switches (modules
  `BacklogScreen` and `TodayScreen`).

Each view model and each gesture tracker is a class whose fields the
methods update. Each method's `ensures` gives every field of the object it
changes, so it says what changes and that nothing else does. The list operations the
methods use are functions (`RemoveById`, `ReplaceById`, `Move`). Their
properties are proved as lemmas: membership, order, length, permutation,
idempotence and round trip.

Where a remote call completes, the model has a method per completion
(`OnSuccessCreateBacklog`, `OnFailedCreateBacklog`,
`OnSuccessGetHistoryList`, ...). The caller chooses the outcome. Each
completion is one atomic step between two screen transitions, so the
model covers every order of whole steps, but not a completion that runs in
the middle of a transition.
`SwipeThenFailedCreate` shows one of them. A create fails after a swipe
removal, and the shared snapshot brings the swiped item back.

The model follows the code, not an idealised design:
- there is one rollback slot per view model, not one per pending mutation;
- swipe removal is local only and never updates the snapshot;
- `removeBacklogItem` reports nothing back.

## Model

| member | source | states |
|---|---|---|
| `Todo.RemoveById` | feature/backlog/src/main/java/com/poptato/backlog/BacklogViewModel.kt:92 | the filter never lengthens the list and no survivor carries the removed id |
| `Todo.RemoveByIdMembers` | feature/backlog/src/main/java/com/poptato/backlog/BacklogViewModel.kt:91-92 | an item is in the filtered list iff it was in the list and its id differs from the removed id |
| `Todo.RemoveByIdConcat` | feature/backlog/src/main/java/com/poptato/backlog/BacklogViewModel.kt:92 | the filter distributes over concatenation, so surviving items keep their relative order |
| `Todo.RemoveByIdLength` | feature/backlog/src/main/java/com/poptato/backlog/BacklogViewModel.kt:92 | the filtered list is shorter by exactly the number of elements carrying the id |
| `Todo.RemoveByIdAbsent` | feature/backlog/src/main/java/com/poptato/backlog/BacklogViewModel.kt:92 | removing an id that is not in the list leaves the list unchanged |
| `Todo.RemoveByIdUnique` | feature/backlog/src/main/java/com/poptato/backlog/BacklogViewModel.kt:91-99 | with unique ids, removing a present id shortens the list by one, an absent id changes nothing, and the id is gone afterwards |
| `Todo.ReplaceById` | feature/backlog/src/main/java/com/poptato/backlog/BacklogViewModel.kt:117-120 | the deadline map keeps the length of the list |
| `Todo.ReplaceByIdAt` | feature/backlog/src/main/java/com/poptato/backlog/BacklogViewModel.kt:116-120 | the deadline map keeps the length; each element with the selected id becomes the updated item, every other element is kept |
| `Todo.ReplaceByIdIds` | feature/backlog/src/main/java/com/poptato/backlog/BacklogViewModel.kt:117-120 | the sequence of ids is unchanged by the deadline map |
| `Todo.ReplaceByIdIdempotent` | feature/backlog/src/main/java/com/poptato/backlog/BacklogViewModel.kt:115-128 | applying the same deadline update twice equals applying it once |
| `Todo.Move` | feature/backlog/src/main/java/com/poptato/backlog/BacklogViewModel.kt:101-105 | a move keeps the length and puts the element from `from` at `to` |
| `Todo.MoveSpec` | feature/backlog/src/main/java/com/poptato/backlog/BacklogViewModel.kt:101-105 | a move keeps the length, puts the element from `from` at `to`, and yields a permutation of the list |
| `Todo.MoveRoundTrip` | feature/backlog/src/main/java/com/poptato/backlog/BacklogViewModel.kt:101-105 | moving from `to` back to `from` undoes a move |
| `Todo.MoveKeepsOutside` | feature/backlog/src/main/java/com/poptato/backlog/BacklogViewModel.kt:101-105 | elements before both indices or after both indices stay in place |
| `Backlog.BacklogViewModel.constructor` | feature/backlog/src/main/java/com/poptato/backlog/BacklogViewModel.kt:24-27 | a new view model has an empty list, an empty snapshot, empty input and no events |
| `Backlog.BacklogViewModel.OnSuccessGetBacklogList` | feature/backlog/src/main/java/com/poptato/backlog/BacklogViewModel.kt:41-51 | a fetched page becomes both the shown list and the snapshot; the page and item counts are taken over; nothing else changes |
| `Backlog.BacklogViewModel.OnValueChange` | feature/backlog/src/main/java/com/poptato/backlog/BacklogViewModel.kt:53-59 | only the task input changes |
| `Backlog.BacklogViewModel.CreateBacklog` | feature/backlog/src/main/java/com/poptato/backlog/BacklogViewModel.kt:61-68 | a new item with the given content and temporary id is at index 0; the length grows by one; the old items follow in order; the snapshot is untouched |
| `Backlog.BacklogViewModel.OnSuccessCreateBacklog` | feature/backlog/src/main/java/com/poptato/backlog/BacklogViewModel.kt:77-79 | the snapshot becomes exactly the current list, and the list does not change |
| `Backlog.BacklogViewModel.OnFailedCreateBacklog` | feature/backlog/src/main/java/com/poptato/backlog/BacklogViewModel.kt:81-89 | the list becomes exactly the snapshot and exactly one failure event is appended |
| `Backlog.BacklogViewModel.OnCreateBacklogResponse` | feature/backlog/src/main/java/com/poptato/backlog/BacklogViewModel.kt:70-74 | the remote result goes to the commit path on success and to the rollback path with one event on failure |
| `Backlog.BacklogViewModel.RemoveBacklogItem` | feature/backlog/src/main/java/com/poptato/backlog/BacklogViewModel.kt:91-99 | the list becomes the order-keeping filter that drops the item's id; snapshot, input and selected item are unchanged |
| `Backlog.BacklogViewModel.MoveItem` | feature/backlog/src/main/java/com/poptato/backlog/BacklogViewModel.kt:101-105 | the list becomes the move from `fromIndex` to `toIndex`: same length, the moved item at `toIndex`, a permutation; nothing else changes |
| `Backlog.BacklogViewModel.UpdateList` | feature/backlog/src/main/java/com/poptato/backlog/BacklogViewModel.kt:107-113 | only the shown list is replaced |
| `Backlog.BacklogViewModel.SetDeadline` | feature/backlog/src/main/java/com/poptato/backlog/BacklogViewModel.kt:115-128 | the selected item gets the new deadline; each element with its id is replaced by it; all other elements and the length are unchanged |
| `Backlog.BacklogViewModel.OnSelectedItem` | feature/backlog/src/main/java/com/poptato/backlog/BacklogViewModel.kt:130-136 | only the selected item changes |
| `Backlog.SwipeThenFailedCreate` | feature/backlog/src/main/java/com/poptato/backlog/BacklogViewModel.kt:77-99 | from a committed list, a swipe removal followed by a failed create restores the whole list, including the swiped item |
| `Backlog.SwipeThenSucceededCreate` | feature/backlog/src/main/java/com/poptato/backlog/BacklogViewModel.kt:77-99 | a swipe removal followed by a successful create commits the new item plus the filtered list into the snapshot |
| `BacklogScreen.LeftDrag` | feature/backlog/src/main/java/com/poptato/backlog/BacklogScreen.kt:359-364 | a delta is applied whole or dropped whole, never clamped; it is applied iff the offset stays at or left of 0; a non-positive offset stays non-positive |
| `BacklogScreen.LeftDragAllNonPositive` | feature/backlog/src/main/java/com/poptato/backlog/BacklogScreen.kt:359-364 | over any sequence of drag events the backlog offset never becomes positive |
| `BacklogScreen.RightwardDeltasIgnored` | feature/backlog/src/main/java/com/poptato/backlog/BacklogScreen.kt:359-364 | from rest, purely rightward deltas leave the offset at 0 |
| `BacklogScreen.LeftwardDeltasAdd` | feature/backlog/src/main/java/com/poptato/backlog/BacklogScreen.kt:359-364 | purely leftward deltas add up exactly |
| `BacklogScreen.BacklogSwipe.constructor` | feature/backlog/src/main/java/com/poptato/backlog/BacklogScreen.kt:335-336 | a row starts at offset 0 |
| `BacklogScreen.BacklogSwipe.OnHorizontalDrag` | feature/backlog/src/main/java/com/poptato/backlog/BacklogScreen.kt:359-364 | the offset follows the left-only drag rule and stays non-positive |
| `BacklogScreen.BacklogSwipe.OnDragEnd` | feature/backlog/src/main/java/com/poptato/backlog/BacklogScreen.kt:352-358 | the row's item is reported swiped iff the offset is below -200 (-200 itself does not fire); otherwise the offset resets to 0 |
| `BacklogScreen.OverscrollDecision` | feature/backlog/src/main/java/com/poptato/backlog/BacklogScreen.kt:322-329 | an active job blocks any new scroll; otherwise a non-zero overscroll launches a scroll by that amount and a zero one cancels, so the cancel branch is only reached when no job is active |
| `BacklogScreen.DragSession.constructor` | feature/backlog/src/main/java/com/poptato/backlog/BacklogScreen.kt:297 | no dragged item and no job at the start |
| `BacklogScreen.DragSession.OnDragStart` | feature/backlog/src/main/java/com/poptato/backlog/BacklogScreen.kt:306-310 | the dragged item is set to the list element at the reported index; with no index it is left as it was; an index past the end of the list makes the lookup throw and also leaves it as it was |
| `BacklogScreen.DragSession.OnDragInterrupted` | feature/backlog/src/main/java/com/poptato/backlog/BacklogScreen.kt:311-318 | drag end and drag cancel both notify the list state once and clear the dragged item |
| `BacklogScreen.DragSession.OnDrag` | feature/backlog/src/main/java/com/poptato/backlog/BacklogScreen.kt:319-330 | the action taken is the overscroll decision; a launch records the scroll and marks the job active; otherwise the job state is unchanged |
| `BacklogScreen.DragSession.OnScrollJobEnded` | feature/backlog/src/main/java/com/poptato/backlog/BacklogScreen.kt:327-329 | a scroll job that finished or was cancelled is no longer active; nothing else changes |
| `BacklogScreen.ImeDoneEvents` | feature/backlog/src/main/java/com/poptato/backlog/BacklogScreen.kt:245-249 | IME Done creates the input iff it is non-empty, and always ends by clearing the field |
| `BacklogScreen.ClearButton` | feature/backlog/src/main/java/com/poptato/backlog/BacklogScreen.kt:274-286 | the clear button exists iff the input is non-empty, and it clears the field |
| `BacklogScreen.OnImeDone` | feature/backlog/src/main/java/com/poptato/backlog/BacklogScreen.kt:245-249 | the input is cleared; a non-empty input is first created at the front of the list; an empty one leaves the list alone |
| `BacklogScreen.OnMove` | feature/backlog/src/main/java/com/poptato/backlog/BacklogScreen.kt:100-105 | a move `(from, to)` is forwarded unchanged to the view model's move |
| `BacklogScreen.OnRowDragEnd` | feature/backlog/src/main/java/com/poptato/backlog/BacklogScreen.kt:352-358 | a fired swipe removes the row's item id from the list; otherwise the list is kept and the row springs back |
| `BacklogScreen.OnClickBtnTodoSettings` | feature/backlog/src/main/java/com/poptato/backlog/BacklogScreen.kt:136-139 | the element at the clicked index is both the sheet's item and the new selected item |
| `BacklogScreen.BacklogBodyFor` | feature/backlog/src/main/java/com/poptato/backlog/BacklogScreen.kt:182-204 | an empty list shows the empty title; a non-empty list shows exactly that list |
| `TodayScreen.RightDrag` | feature/today/src/main/java/com/poptato/today/TodayScreen.kt:189-194 | a delta is applied whole or dropped whole; it is applied iff the offset stays at or right of 0; a non-negative offset stays non-negative |
| `TodayScreen.RightDragMirrorsLeftDrag` | feature/today/src/main/java/com/poptato/today/TodayScreen.kt:189-194 | the today drag rule is the backlog rule with both signs flipped |
| `TodayScreen.RightDragAllNonNegative` | feature/today/src/main/java/com/poptato/today/TodayScreen.kt:189-194 | over any sequence of drag events the today offset never becomes negative |
| `TodayScreen.LeftwardDeltasIgnored` | feature/today/src/main/java/com/poptato/today/TodayScreen.kt:189-194 | from rest, purely leftward deltas leave the offset at 0 |
| `TodayScreen.TodaySwipe.constructor` | feature/today/src/main/java/com/poptato/today/TodayScreen.kt:166-167 | a row starts at offset 0 |
| `TodayScreen.TodaySwipe.OnHorizontalDrag` | feature/today/src/main/java/com/poptato/today/TodayScreen.kt:189-194 | the offset follows the right-only drag rule and stays non-negative |
| `TodayScreen.TodaySwipe.OnDragEnd` | feature/today/src/main/java/com/poptato/today/TodayScreen.kt:182-188 | the row's item is reported swiped iff the offset is above 200 (200 itself does not fire); otherwise the offset resets to 0 |
| `TodayScreen.DeadlineLabelFor` | feature/today/src/main/java/com/poptato/today/TodayScreen.kt:268-272 | no label iff there is no day count; the D-day label iff the count is 0; otherwise the count itself |
| `TodayScreen.OnCheckedChange` | feature/today/src/main/java/com/poptato/today/TodayScreen.kt:285-290 | a toggle reports the item's id and its current status, which is COMPLETED iff the box is shown checked |
| `TodayScreen.TodayBodyFor` | feature/today/src/main/java/com/poptato/today/TodayScreen.kt:143-150 | an empty list shows the empty view and never the list; a non-empty list shows exactly that list |
| `History.PreviousMonthStart` | feature/history/src/main/java/com/potato/history/HistoryViewModel.kt:124 | a valid date on day 1 of the month before |
| `History.NextMonthStart` | feature/history/src/main/java/com/potato/history/HistoryViewModel.kt:125 | a valid date on day 1 of the month after |
| `History.StepMonth` | feature/history/src/main/java/com/potato/history/HistoryViewModel.kt:122-126 | both directions yield a valid date on day 1 |
| `History.MonthStepRoundTrip` | feature/history/src/main/java/com/potato/history/HistoryViewModel.kt:122-126 | NEXT after PREVIOUS, and PREVIOUS after NEXT, return to day 1 of the original month |
| `History.StepMonthsIndex` | feature/history/src/main/java/com/potato/history/HistoryViewModel.kt:122-126 | `n` steps in one direction move exactly `n` months |
| `History.DayIconFor` | feature/history/src/main/java/com/potato/history/HistoryViewModel.kt:76-82 | star iff there is an event and the date is before today; circle iff the date is today or later; moon iff no event and the date is before today |
| `History.CanFetch` | feature/history/src/main/java/com/potato/history/HistoryViewModel.kt:38 | a fetch in flight blocks any other; a state on page 0 that is not loading may always fetch; past page 0 a fetch needs the page to be below the page count |
| `History.HistoryViewModel.constructor` | feature/history/src/main/java/com/potato/history/HistoryViewModel.kt:26-30 | a new view model is on page 0, not loading, with -1 pages known and no entries |
| `History.HistoryViewModel.GetHistoryList` | feature/history/src/main/java/com/potato/history/HistoryViewModel.kt:37-48 | a fetch starts iff not loading and (page 0 or page below the page count); starting sets the loading flag and requests the current page, size and date; otherwise nothing changes |
| `History.HistoryViewModel.OnSuccessGetHistoryList` | feature/history/src/main/java/com/potato/history/HistoryViewModel.kt:64-74 | the page replaces the list (no append), loading ends, the page count is taken over and the page advances by exactly one |
| `History.HistoryViewModel.OnFailedGetHistoryList` | feature/history/src/main/java/com/potato/history/HistoryViewModel.kt:52-59 | an exception only clears the loading flag; the page is unchanged |
| `History.HistoryViewModel.GetCalendarList` | feature/history/src/main/java/com/potato/history/HistoryViewModel.kt:84-93 | the calendar request names the year and month of the month being shown |
| `History.HistoryViewModel.OnSuccessGetCalendarList` | feature/history/src/main/java/com/potato/history/HistoryViewModel.kt:100-106 | only the event dates change |
| `History.HistoryViewModel.UpdateSelectedDate` | feature/history/src/main/java/com/potato/history/HistoryViewModel.kt:108-120 | the date is set and paging restarts at page 0 not loading, so the fetch that follows always starts, for page 0 of the new date |
| `History.HistoryViewModel.UpdateCurrentMonth` | feature/history/src/main/java/com/potato/history/HistoryViewModel.kt:122-138 | the month moves to day 1 of the adjacent month and its calendar is requested; a history fetch starts iff the guard allows it, and then sets the loading flag and requests the current page, size and date; otherwise the loading flag is kept; nothing else changes |
| `MainNav.BottomNavFor` | feature/src/main/java/com/poptato/feature/MainViewModel.kt:18-29 | the backlog route maps to BACK_LOG and the today route to TODAY; any other route, or none, maps to DEFAULT; HISTORY and SETTINGS never come out |
| `MainNav.MainViewModel.constructor` | feature/src/main/java/com/poptato/feature/MainPageState.kt:7-10 | a new view model shows the DEFAULT tab |
| `MainNav.MainViewModel.SetBottomNavType` | feature/src/main/java/com/poptato/feature/MainViewModel.kt:18-31 | only the tab changes, to the route's tab |
| `MainNav.MainViewModel.UpdateBottomNav` | feature/src/main/java/com/poptato/feature/MainViewModel.kt:33-39 | only the tab changes |
| `MainNav.MainViewModel.OnSelectedTodoItem` | feature/src/main/java/com/poptato/feature/MainViewModel.kt:41-48 | the item is stored and exactly one bottom-sheet event is emitted |
| `MainNav.MainViewModel.OnUpdatedDeadline` | feature/src/main/java/com/poptato/feature/MainViewModel.kt:50-58 | only the selected item's deadline changes; its id, content and other fields are kept |

## Left out

- Coroutines, `viewModelScope` and dispatchers. Each remote completion is a method the caller invokes, modelled as atomic. The create completion is launched on `Dispatchers.IO` and reads and rewrites the list and the snapshot. If it runs in the middle of a main-thread transition, one of the two writes can be lost (a rollback landing between the read and the write of a removal, say). Such finer interleavings are not modelled.
- The auto-scroll `Job`. It is modelled as a boolean `overscrollJobActive` plus a log of launched scroll amounts. The scrolling itself is not modelled.
- Network, dependency-injection and use-case layers (`CreateBacklogUseCase`, `GetBacklogListUseCase`, the history use cases, the Retrofit services). Their results are method parameters.
- `BaseViewModel` (`updateState`, `resultResponse`, `emitEventFlow`) is not part of this model. Emitted events are appended to an `events` field. A `resultResponse` failure that is not an exception is not modelled for the history fetch; the source's behaviour there cannot be read.
- `com.poptato.core.util.move` is not part of this model. `Todo.Move` defines it as "remove at `from`, insert at `to`".
- MoveItem: requires both indices to be in range. This assumes that the drag-and-drop list state, which is not part of this model, reports only in-range moves; an out-of-range move is not modelled.
- `DragDropListState` (`onDragStart`, `onDrag`, `checkForOverScroll`, `onDragInterrupted`, `elementDisplacement`) is not part of this model. The dragged index and the overscroll amount are parameters, and `onDragInterrupted` is counted. Displacement and the emission of moves are not modelled.
- BacklogScreen.DragSession: the reported dragged index is a free parameter; nothing shown keeps it within the list that the gesture handler captured, so an out-of-range index is modelled as the thrown lookup (`outOfBounds`), and what the exception does to the gesture is not modelled. Whether `onDragInterrupted` cancels a running scroll job is not shown: `OnDragInterrupted` leaves the job flag alone, and a cancellation by the list state is a separate `OnScrollJobEnded` step.
- `TodayViewModel` is not part of this model. A fired today swipe and a checkbox toggle are returned as values, not applied to a list.
- `TodoItemModel` and `BacklogPageState` are not part of this model. The item's fields come from their uses. The defaults of a freshly created item and of the initial selected item are assumed: not completed, no bookmark, no day count, empty deadline, and id -1 for the initial item. The initial page counts of the backlog are assumed to be 0.
- `HistoryPageState.kt` lacks most fields the history view model uses. The model has the fields the view model reads and writes. Only `totalPageCount = -1` and the empty history list are taken from that file. The initial `currentPage = 0`, `isLoadingMore = false` and empty `eventDates` are assumed, as no file gives them; the initial page size, selected date and month are constructor parameters.
- `NavRoutes.kt` has no today route. `MainNav.BottomNavFor` and `SetBottomNavType` take the today route as a parameter; the backlog route is `"backlog"`.
- `Random.nextLong()` for the temporary id is a parameter. Duplicate ids are not excluded, as in the code. The Long range of ids is not modelled.
- `LocalDate.now()` is a single parameter `today`. The code calls it up to three times and could see two different days around midnight. The year range limits of `LocalDate` are not modelled.
- Pixel offsets are `real`; float rounding is not modelled.
- The view models' `init` blocks start fetches (`getBacklogList(0, 8)`, `getHistoryList()`, `getCalendarList()`). The constructors build only the initial state; the fetches are separate method calls.
- Compose rendering and animation are not modelled. This covers `graphicsLayer`, `animateItem`, `AnimatedVisibility`, the springs in `TodayTodoItem`, and the bookmark and padding layout.
- Other screens and plumbing are not modelled: navigation, login, notifications, settings, web viewer and bottom sheet.
