/**
 * The gesture and callback logic of the backlog screen: the per-row
 * swipe-to-delete tracker (left only), the long-press drag session with its
 * auto-scroll job, the text field's submit and clear rules, and the wiring of
 * screen callbacks into the backlog view model. Pixel offsets are `real`.
 */
module BacklogScreen {
  import opened Wrappers
  import opened Todo
  import opened Backlog

  /** Distance, in pixels, a row must be dragged past to count as swiped. */
  const SwipeThreshold: real := 200.0

  // ---------------------------------------------------------------------------
  // Swipe to delete (leftwards)

  /** One horizontal drag event: the delta is applied whole when the offset stays at or left of 0, else dropped. */
  function LeftDrag(offset: real, delta: real): (r: real)
    ensures r == offset + delta || r == offset
    ensures offset + delta <= 0.0 ==> r == offset + delta
    ensures offset + delta > 0.0 ==> r == offset
    ensures offset <= 0.0 ==> r <= 0.0
  {
    if offset + delta <= 0.0 then offset + delta else offset
  }

  /** The offset after a whole sequence of drag events, in arrival order. */
  function LeftDragAll(offset: real, deltas: seq<real>): real
    decreases |deltas|
  {
    if deltas == [] then offset else LeftDragAll(LeftDrag(offset, deltas[0]), deltas[1..])
  }

  /** However the finger moves, an offset that starts at or left of 0 never becomes positive. */
  lemma {:induction false} LeftDragAllNonPositive(offset: real, deltas: seq<real>)
    requires offset <= 0.0
    ensures LeftDragAll(offset, deltas) <= 0.0
    decreases |deltas|
  {
    if deltas != [] {
      LeftDragAllNonPositive(LeftDrag(offset, deltas[0]), deltas[1..]);
    }
  }

  /** Rightward movement never takes a row past its resting place: from rest, purely rightward deltas leave it at 0. */
  lemma {:induction false} RightwardDeltasIgnored(deltas: seq<real>)
    requires forall i :: 0 <= i < |deltas| ==> deltas[i] >= 0.0
    ensures LeftDragAll(0.0, deltas) == 0.0
  {
    if deltas != [] {
      RightwardDeltasIgnored(deltas[1..]);
    }
  }

  /** Leftward movement is never lost: purely leftward deltas add up exactly. */
  lemma {:induction false} LeftwardDeltasAdd(offset: real, deltas: seq<real>)
    requires offset <= 0.0
    requires forall i :: 0 <= i < |deltas| ==> deltas[i] <= 0.0
    ensures LeftDragAll(offset, deltas) == offset + Sum(deltas)
    decreases |deltas|
  {
    if deltas != [] {
      LeftwardDeltasAdd(offset + deltas[0], deltas[1..]);
    }
  }

  function Sum(deltas: seq<real>): real
  {
    if deltas == [] then 0.0 else deltas[0] + Sum(deltas[1..])
  }

  /** Release fires a swipe exactly past the threshold; -200 itself does not fire. */
  predicate LeftSwipeFires(offset: real)
  {
    offset < -SwipeThreshold
  }

  /** The swipe tracker of one backlog row. */
  class BacklogSwipe {
    const item: TodoItem
    var offsetX: real

    ghost predicate Valid()
      reads this
    {
      offsetX <= 0.0
    }

    constructor (item: TodoItem)
      ensures this.item == item && offsetX == 0.0 && Valid()
    {
      this.item := item;
      offsetX := 0.0;
    }

    method OnHorizontalDrag(dragAmount: real)
      requires Valid()
      modifies this
      ensures Valid()
      ensures offsetX == LeftDrag(old(offsetX), dragAmount)
    {
      if offsetX + dragAmount <= 0.0 {
        offsetX := offsetX + dragAmount;
      }
    }

    /** Release: the row's item is reported swiped once past the threshold; otherwise the row springs back to 0. */
    method OnDragEnd() returns (swiped: Option<TodoItem>)
      requires Valid()
      modifies this
      ensures Valid()
      ensures swiped.Some? <==> LeftSwipeFires(old(offsetX))
      ensures swiped.Some? ==> swiped.value == item && offsetX == old(offsetX)
      ensures swiped.None? ==> offsetX == 0.0
    {
      if offsetX < -SwipeThreshold {
        swiped := Some(item);
      } else {
        swiped := None;
        offsetX := 0.0;
      }
    }
  }

  // ---------------------------------------------------------------------------
  // Long-press drag session and auto-scroll

  /** What one drag event does about auto-scrolling. */
  datatype OverscrollAction = KeepRunningJob | LaunchScroll(amount: real) | CancelJob

  /**
   * While a scroll job is active nothing new is launched; otherwise a
   * non-zero overscroll launches a scroll by that amount and a zero one
   * cancels the job. So the cancel branch is only reached when no job is
   * active: a drag event never cancels a running scroll.
   */
  function OverscrollDecision(jobActive: bool, overscroll: real): (a: OverscrollAction)
    ensures a.KeepRunningJob? <==> jobActive
    ensures a.LaunchScroll? <==> !jobActive && overscroll != 0.0
    ensures a.LaunchScroll? ==> a.amount == overscroll
    ensures a.CancelJob? <==> !jobActive && overscroll == 0.0
  {
    if jobActive then KeepRunningJob
    else if overscroll != 0.0 then LaunchScroll(overscroll)
    else CancelJob
  }

  /** The list-wide long-press drag state of the backlog list. */
  class DragSession {
    var draggedItem: Option<TodoItem>
    var overscrollJobActive: bool
    // calls forwarded to the drag-and-drop list state's onDragInterrupted
    var interruptions: nat
    // amounts of every scroll job launched, oldest first
    var scrollsLaunched: seq<real>

    constructor ()
      ensures draggedItem == None && !overscrollJobActive
      ensures interruptions == 0 && scrollsLaunched == []
    {
      draggedItem := None;
      overscrollJobActive := false;
      interruptions := 0;
      scrollsLaunched := [];
    }

    /**
     * Long press: the dragged item is taken from the list only when the list
     * state reports the index under the finger; with no index nothing
     * changes. An index past the end of the list makes the lookup throw
     * (`outOfBounds`), and the dragged item is then left as it was.
     */
    method OnDragStart(taskList: seq<TodoItem>, currentIndexOfDraggedItem: Option<nat>) returns (outOfBounds: bool)
      modifies this
      ensures outOfBounds <==> currentIndexOfDraggedItem.Some? && currentIndexOfDraggedItem.value >= |taskList|
      ensures currentIndexOfDraggedItem.Some? && !outOfBounds ==> draggedItem == Some(taskList[currentIndexOfDraggedItem.value])
      ensures currentIndexOfDraggedItem.None? || outOfBounds ==> draggedItem == old(draggedItem)
      ensures overscrollJobActive == old(overscrollJobActive)
      ensures interruptions == old(interruptions) && scrollsLaunched == old(scrollsLaunched)
    {
      outOfBounds := false;
      if currentIndexOfDraggedItem.Some? {
        if currentIndexOfDraggedItem.value < |taskList| {
          draggedItem := Some(taskList[currentIndexOfDraggedItem.value]);
        } else {
          outOfBounds := true;
        }
      }
    }

    /**
     * Drag end and drag cancel behave alike: the list state is told and the
     * dragged item is cleared. Whatever the list state then does to a running
     * scroll job is a separate OnScrollJobEnded step.
     */
    method OnDragInterrupted()
      modifies this
      ensures draggedItem == None && interruptions == old(interruptions) + 1
      ensures overscrollJobActive == old(overscrollJobActive) && scrollsLaunched == old(scrollsLaunched)
    {
      interruptions := interruptions + 1;
      draggedItem := None;
    }

    /** One drag event, given the overscroll the list state computes for it. */
    method OnDrag(overscroll: real) returns (action: OverscrollAction)
      modifies this
      ensures action == OverscrollDecision(old(overscrollJobActive), overscroll)
      ensures action.LaunchScroll? ==> overscrollJobActive && scrollsLaunched == old(scrollsLaunched) + [overscroll]
      ensures !action.LaunchScroll? ==> overscrollJobActive == old(overscrollJobActive) && scrollsLaunched == old(scrollsLaunched)
      ensures draggedItem == old(draggedItem) && interruptions == old(interruptions)
    {
      if overscrollJobActive {
        return KeepRunningJob;
      }
      if overscroll != 0.0 {
        action := LaunchScroll(overscroll);
        overscrollJobActive := true;
        scrollsLaunched := scrollsLaunched + [overscroll];
      } else {
        // cancelling a job that is not active changes nothing
        action := CancelJob;
      }
    }

    /** The launched scroll job ended, by finishing or by being cancelled. */
    method OnScrollJobEnded()
      modifies this
      ensures !overscrollJobActive
      ensures draggedItem == old(draggedItem) && interruptions == old(interruptions)
      ensures scrollsLaunched == old(scrollsLaunched)
    {
      overscrollJobActive := false;
    }
  }

  // ---------------------------------------------------------------------------
  // The text field for new backlog items

  /** The callbacks the text field invokes: `createBacklog(content)` and `onValueChange(newValue)`. */
  datatype TextFieldEvent = CreateRequested(content: string) | ValueChange(newValue: string)

  /** IME Done: a non-empty input is created, and the field is cleared in every case. */
  function ImeDoneEvents(taskInput: string): (r: seq<TextFieldEvent>)
    ensures |r| > 0 && r[|r| - 1] == ValueChange("")
    ensures CreateRequested(taskInput) in r <==> taskInput != ""
    ensures forall e :: e in r && e.CreateRequested? ==> e == CreateRequested(taskInput)
    ensures |r| == if taskInput == "" then 1 else 2
  {
    (if taskInput != "" then [CreateRequested(taskInput)] else []) + [ValueChange("")]
  }

  /** The clear button is shown only for a non-empty input, and clears it. */
  function ClearButton(taskInput: string): (r: Option<TextFieldEvent>)
    ensures r.Some? <==> taskInput != ""
    ensures r.Some? ==> r.value == ValueChange("")
  {
    if taskInput != "" then Some(ValueChange("")) else None
  }

  /** The events of IME Done, applied in order to the view model. */
  method OnImeDone(vm: BacklogViewModel, tempId: int)
    modifies vm
    ensures vm.taskInput == ""
    ensures old(vm.taskInput) != "" ==> vm.backlogList == [NewTodo(old(vm.taskInput), tempId)] + old(vm.backlogList)
    ensures old(vm.taskInput) == "" ==> vm.backlogList == old(vm.backlogList)
    ensures vm.snapshotList == old(vm.snapshotList) && vm.selectedItem == old(vm.selectedItem)
    ensures vm.events == old(vm.events)
    ensures vm.totalPageCount == old(vm.totalPageCount) && vm.totalItemCount == old(vm.totalItemCount)
  {
    var input := vm.taskInput;
    var events := ImeDoneEvents(input);
    if input != "" {
      assert events[0] == CreateRequested(input);
      vm.CreateBacklog(input, tempId);
      assert vm.backlogList == [NewTodo(input, tempId)] + vm.backlogList[1..];
    }
    vm.OnValueChange("");
  }

  // ---------------------------------------------------------------------------
  // Screen callbacks routed to the view model

  /** A move reported by the drag-and-drop list state is forwarded unchanged. */
  method OnMove(vm: BacklogViewModel, from: nat, to: nat)
    requires from < |vm.backlogList| && to < |vm.backlogList|
    modifies vm
    ensures vm.backlogList == Move(old(vm.backlogList), from, to)
    ensures vm.snapshotList == old(vm.snapshotList) && vm.selectedItem == old(vm.selectedItem)
    ensures vm.taskInput == old(vm.taskInput) && vm.events == old(vm.events)
    ensures vm.totalPageCount == old(vm.totalPageCount) && vm.totalItemCount == old(vm.totalItemCount)
  {
    vm.MoveItem(from, to);
  }

  /** Release of a row's swipe: a fired swipe removes that row's item from the view model's list. */
  method OnRowDragEnd(row: BacklogSwipe, vm: BacklogViewModel) returns (swiped: Option<TodoItem>)
    requires row.Valid()
    modifies row, vm
    ensures row.Valid()
    ensures swiped.Some? <==> LeftSwipeFires(old(row.offsetX))
    ensures swiped.Some? ==> swiped.value == row.item && row.offsetX == old(row.offsetX)
    ensures swiped.Some? ==> vm.backlogList == RemoveById(old(vm.backlogList), row.item.todoId)
    ensures swiped.None? ==> vm.backlogList == old(vm.backlogList) && row.offsetX == 0.0
    ensures vm.snapshotList == old(vm.snapshotList) && vm.selectedItem == old(vm.selectedItem)
    ensures vm.taskInput == old(vm.taskInput) && vm.events == old(vm.events)
    ensures vm.totalPageCount == old(vm.totalPageCount) && vm.totalItemCount == old(vm.totalItemCount)
  {
    swiped := row.OnDragEnd();
    if swiped.Some? {
      vm.RemoveBacklogItem(swiped.value);
    }
  }

  /** The settings button of row `index`: that row's item is shown in the bottom sheet and selected. */
  method OnClickBtnTodoSettings(vm: BacklogViewModel, index: nat) returns (sheetItem: TodoItem)
    requires index < |vm.backlogList|
    modifies vm
    ensures sheetItem == old(vm.backlogList)[index] && vm.selectedItem == sheetItem
    ensures vm.backlogList == old(vm.backlogList) && vm.snapshotList == old(vm.snapshotList)
    ensures vm.taskInput == old(vm.taskInput) && vm.events == old(vm.events)
    ensures vm.totalPageCount == old(vm.totalPageCount) && vm.totalItemCount == old(vm.totalItemCount)
  {
    sheetItem := vm.backlogList[index];
    vm.OnSelectedItem(vm.backlogList[index]);
  }

  /** The backlog body: the empty title for an empty list, else the task list. */
  datatype BacklogBody = EmptyBacklogTitle | TaskList(items: seq<TodoItem>)

  function BacklogBodyFor(backlogList: seq<TodoItem>): (b: BacklogBody)
    ensures b.EmptyBacklogTitle? <==> backlogList == []
    ensures b.TaskList? ==> b.items == backlogList
  {
    if backlogList == [] then EmptyBacklogTitle else TaskList(backlogList)
  }
}
