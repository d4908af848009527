/**
 * The main screen's view model: which bottom-navigation tab is highlighted
 * for the current route, and the to-do item whose bottom sheet is open.
 */
module MainNav {
  import opened Wrappers
  import opened Todo

  datatype BottomNavType = Today | BackLog | History | Settings | Default

  /** Route of the backlog screen. */
  const BacklogRoute: string := "backlog"

  datatype MainEvent = ShowTodoBottomSheet

  /**
   * The tab for a destination route: the backlog route gives BACK_LOG, the
   * today route gives TODAY (the backlog test comes first), and anything
   * else, including no route at all, gives DEFAULT.
   */
  function BottomNavFor(route: Option<string>, todayRoute: string): (t: BottomNavType)
    ensures t == BackLog <==> route == Some(BacklogRoute)
    ensures t == Today <==> route == Some(todayRoute) && todayRoute != BacklogRoute
    ensures t == Default <==> route != Some(BacklogRoute) && route != Some(todayRoute)
    ensures t != History && t != Settings
  {
    match route
    case Some(r) =>
      if r == BacklogRoute then BackLog
      else if r == todayRoute then Today
      else Default
    case None => Default
  }

  class MainViewModel {
    var bottomNavType: BottomNavType
    var selectedTodoItem: TodoItem
    var events: seq<MainEvent>

    constructor ()
      ensures bottomNavType == Default && selectedTodoItem == NewTodo("", -1) && events == []
    {
      bottomNavType := Default;
      selectedTodoItem := NewTodo("", -1);
      events := [];
    }

    /** The destination changed: only the highlighted tab follows it. */
    method SetBottomNavType(route: Option<string>, todayRoute: string)
      modifies this
      ensures bottomNavType == BottomNavFor(route, todayRoute)
      ensures selectedTodoItem == old(selectedTodoItem) && events == old(events)
    {
      UpdateBottomNav(BottomNavFor(route, todayRoute));
    }

    method UpdateBottomNav(t: BottomNavType)
      modifies this
      ensures bottomNavType == t
      ensures selectedTodoItem == old(selectedTodoItem) && events == old(events)
    {
      bottomNavType := t;
    }

    /** An item's settings were opened: it is stored and exactly one bottom-sheet event is emitted. */
    method OnSelectedTodoItem(item: TodoItem)
      modifies this
      ensures selectedTodoItem == item
      ensures events == old(events) + [ShowTodoBottomSheet]
      ensures bottomNavType == old(bottomNavType)
    {
      selectedTodoItem := item;
      events := events + [ShowTodoBottomSheet];
    }

    /** A deadline was picked: only the selected item's deadline changes; its id, content and other fields stay. */
    method OnUpdatedDeadline(date: string)
      modifies this
      ensures selectedTodoItem.deadline == date
      ensures selectedTodoItem.todoId == old(selectedTodoItem).todoId
      ensures selectedTodoItem.content == old(selectedTodoItem).content
      ensures selectedTodoItem == old(selectedTodoItem).(deadline := date)
      ensures bottomNavType == old(bottomNavType) && events == old(events)
    {
      selectedTodoItem := selectedTodoItem.(deadline := date);
    }
  }
}
