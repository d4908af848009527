/**
 * The backlog screen's view model: an ordered backlog list with optimistic
 * creation. A created item is shown at the front at once; the remote create
 * either commits the list into the single rollback slot `snapshotList` or
 * restores the list from it. Remote completions, the temporary id drawn at
 * random and the page the server returns are parameters of the methods.
 */
module Backlog {
  import opened Todo

  /** One-shot events the view model emits to the screen. */
  datatype BacklogEvent = OnFailedCreateBacklog

  class BacklogViewModel {
    // the page state
    var backlogList: seq<TodoItem>
    var taskInput: string
    var selectedItem: TodoItem
    var totalPageCount: int
    var totalItemCount: int
    // the view model's own rollback slot, shared by every pending mutation
    var snapshotList: seq<TodoItem>
    // every event emitted so far, oldest first
    var events: seq<BacklogEvent>

    constructor ()
      ensures backlogList == [] && snapshotList == [] && taskInput == ""
      ensures selectedItem == NewTodo("", -1)
      ensures events == []
    {
      backlogList := [];
      taskInput := "";
      selectedItem := NewTodo("", -1);
      totalPageCount := 0;
      totalItemCount := 0;
      snapshotList := [];
      events := [];
    }

    /** A page arrived: it becomes both the shown list and the rollback snapshot. */
    method OnSuccessGetBacklogList(backlogs: seq<TodoItem>, pageCount: int, itemCount: int)
      modifies this
      ensures backlogList == backlogs && snapshotList == backlogs
      ensures totalPageCount == pageCount && totalItemCount == itemCount
      ensures taskInput == old(taskInput) && selectedItem == old(selectedItem)
      ensures events == old(events)
    {
      snapshotList := backlogs;
      backlogList := backlogs;
      totalPageCount := pageCount;
      totalItemCount := itemCount;
    }

    /** The text field changed; nothing but the input changes. */
    method OnValueChange(newValue: string)
      modifies this
      ensures taskInput == newValue
      ensures backlogList == old(backlogList) && snapshotList == old(snapshotList)
      ensures selectedItem == old(selectedItem) && events == old(events)
      ensures totalPageCount == old(totalPageCount) && totalItemCount == old(totalItemCount)
    {
      taskInput := newValue;
    }

    /**
     * Optimistic insert: a temporary item with the given content and the
     * randomly drawn id goes to the front; the old items follow in order.
     * The remote create is then in flight; its outcome arrives through
     * OnCreateBacklogResponse. The snapshot is not touched here.
     */
    method CreateBacklog(content: string, tempId: int)
      modifies this
      ensures |backlogList| == |old(backlogList)| + 1
      ensures backlogList[0] == NewTodo(content, tempId)
      ensures backlogList[1..] == old(backlogList)
      ensures snapshotList == old(snapshotList) && taskInput == old(taskInput)
      ensures selectedItem == old(selectedItem) && events == old(events)
      ensures totalPageCount == old(totalPageCount) && totalItemCount == old(totalItemCount)
    {
      backlogList := [NewTodo(content, tempId)] + backlogList;
    }

    /** The remote create succeeded: the shown list is committed to the snapshot. */
    method OnSuccessCreateBacklog()
      modifies this
      ensures snapshotList == backlogList == old(backlogList)
      ensures taskInput == old(taskInput) && selectedItem == old(selectedItem)
      ensures events == old(events)
      ensures totalPageCount == old(totalPageCount) && totalItemCount == old(totalItemCount)
    {
      snapshotList := backlogList;
    }

    /** The remote create failed: the list is rolled back to the snapshot and one failure event is emitted. */
    method OnFailedCreateBacklog()
      modifies this
      ensures backlogList == old(snapshotList) && snapshotList == old(snapshotList)
      ensures events == old(events) + [BacklogEvent.OnFailedCreateBacklog]
      ensures taskInput == old(taskInput) && selectedItem == old(selectedItem)
      ensures totalPageCount == old(totalPageCount) && totalItemCount == old(totalItemCount)
    {
      backlogList := snapshotList;
      events := events + [BacklogEvent.OnFailedCreateBacklog];
    }

    /** The remote create's result is dispatched to the success or the failure handler. */
    method OnCreateBacklogResponse(succeeded: bool)
      modifies this
      ensures succeeded ==> snapshotList == backlogList == old(backlogList) && events == old(events)
      ensures !succeeded ==> backlogList == snapshotList == old(snapshotList)
      ensures !succeeded ==> events == old(events) + [BacklogEvent.OnFailedCreateBacklog]
      ensures taskInput == old(taskInput) && selectedItem == old(selectedItem)
      ensures totalPageCount == old(totalPageCount) && totalItemCount == old(totalItemCount)
    {
      if succeeded {
        OnSuccessCreateBacklog();
      } else {
        OnFailedCreateBacklog();
      }
    }

    /**
     * Swipe removal: every item with the swiped item's id is dropped, the rest
     * keep their order. Local only: the snapshot is NOT updated.
     */
    method RemoveBacklogItem(item: TodoItem)
      modifies this
      ensures backlogList == RemoveById(old(backlogList), item.todoId)
      ensures forall x :: x in backlogList <==> x in old(backlogList) && x.todoId != item.todoId
      ensures snapshotList == old(snapshotList) && taskInput == old(taskInput)
      ensures selectedItem == old(selectedItem) && events == old(events)
      ensures totalPageCount == old(totalPageCount) && totalItemCount == old(totalItemCount)
    {
      RemoveByIdMembers(backlogList, item.todoId);
      backlogList := RemoveById(backlogList, item.todoId);
    }

    /** Drag reorder: the item at `fromIndex` moves to `toIndex`; a permutation of the old list. */
    method MoveItem(fromIndex: nat, toIndex: nat)
      requires fromIndex < |backlogList| && toIndex < |backlogList|
      modifies this
      ensures backlogList == Move(old(backlogList), fromIndex, toIndex)
      ensures |backlogList| == |old(backlogList)| && backlogList[toIndex] == old(backlogList)[fromIndex]
      ensures multiset(backlogList) == multiset(old(backlogList))
      ensures snapshotList == old(snapshotList) && taskInput == old(taskInput)
      ensures selectedItem == old(selectedItem) && events == old(events)
      ensures totalPageCount == old(totalPageCount) && totalItemCount == old(totalItemCount)
    {
      MoveSpec(backlogList, fromIndex, toIndex);
      UpdateList(Move(backlogList, fromIndex, toIndex));
    }

    /** Replaces the shown list and nothing else. */
    method UpdateList(updatedList: seq<TodoItem>)
      modifies this
      ensures backlogList == updatedList
      ensures snapshotList == old(snapshotList) && taskInput == old(taskInput)
      ensures selectedItem == old(selectedItem) && events == old(events)
      ensures totalPageCount == old(totalPageCount) && totalItemCount == old(totalItemCount)
    {
      backlogList := updatedList;
    }

    /**
     * The selected item gets the new deadline, and so does every list element
     * with its id; all other elements and the length are kept.
     */
    method SetDeadline(deadline: string)
      modifies this
      ensures selectedItem == old(selectedItem).(deadline := deadline)
      ensures backlogList == ReplaceById(old(backlogList), selectedItem)
      ensures |backlogList| == |old(backlogList)|
      ensures forall i :: 0 <= i < |backlogList| ==>
        backlogList[i] == if old(backlogList)[i].todoId == selectedItem.todoId then selectedItem else old(backlogList)[i]
      ensures snapshotList == old(snapshotList) && taskInput == old(taskInput) && events == old(events)
      ensures totalPageCount == old(totalPageCount) && totalItemCount == old(totalItemCount)
    {
      var updatedItem := selectedItem.(deadline := deadline);
      ReplaceByIdAt(backlogList, updatedItem);
      backlogList := ReplaceById(backlogList, updatedItem);
      selectedItem := updatedItem;
    }

    /** Remembers the item whose settings sheet was opened; nothing else changes. */
    method OnSelectedItem(item: TodoItem)
      modifies this
      ensures selectedItem == item
      ensures backlogList == old(backlogList) && snapshotList == old(snapshotList)
      ensures taskInput == old(taskInput) && events == old(events)
      ensures totalPageCount == old(totalPageCount) && totalItemCount == old(totalItemCount)
    {
      selectedItem := item;
    }
  }

  /**
   * The single rollback slot also undoes removals: starting from a committed
   * list, swiping an item away and then having a create fail brings the
   * swiped item back at its old place, and one failure event is emitted.
   */
  method SwipeThenFailedCreate(vm: BacklogViewModel, swiped: TodoItem, content: string, tempId: int)
    requires vm.backlogList == vm.snapshotList
    modifies vm
    ensures vm.backlogList == old(vm.backlogList)
    ensures swiped in old(vm.backlogList) ==> swiped in vm.backlogList
    ensures vm.events == old(vm.events) + [BacklogEvent.OnFailedCreateBacklog]
    ensures vm.snapshotList == old(vm.snapshotList) && vm.taskInput == old(vm.taskInput)
    ensures vm.selectedItem == old(vm.selectedItem)
    ensures vm.totalPageCount == old(vm.totalPageCount) && vm.totalItemCount == old(vm.totalItemCount)
  {
    vm.RemoveBacklogItem(swiped);
    vm.CreateBacklog(content, tempId);
    vm.OnCreateBacklogResponse(false);
  }

  /** By contrast, a successful create after a swipe commits the removal together with the new item. */
  method SwipeThenSucceededCreate(vm: BacklogViewModel, swiped: TodoItem, content: string, tempId: int)
    modifies vm
    ensures vm.backlogList == vm.snapshotList == [NewTodo(content, tempId)] + RemoveById(old(vm.backlogList), swiped.todoId)
    ensures swiped.todoId != tempId ==> swiped !in vm.snapshotList
    ensures vm.events == old(vm.events)
    ensures vm.taskInput == old(vm.taskInput) && vm.selectedItem == old(vm.selectedItem)
    ensures vm.totalPageCount == old(vm.totalPageCount) && vm.totalItemCount == old(vm.totalItemCount)
  {
    vm.RemoveBacklogItem(swiped);
    vm.CreateBacklog(content, tempId);
    vm.OnCreateBacklogResponse(true);
    assert vm.backlogList == [NewTodo(content, tempId)] + vm.backlogList[1..];
  }
}
