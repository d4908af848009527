/**
 * The today screen's list logic: the per-row swipe tracker (right only), the
 * deadline label and checkbox of a row, and the empty/non-empty switch of the
 * screen body. The today view model itself is not part of this model; a
 * fired swipe and a checkbox toggle are returned as values.
 */
module TodayScreen {
  import opened Wrappers
  import opened Todo
  import BacklogScreen

  /** Distance, in pixels, a row must be dragged past to count as swiped. */
  const SwipeThreshold: real := 200.0

  /** One horizontal drag event: the delta is applied whole when the offset stays at or right of 0, else dropped. */
  function RightDrag(offset: real, delta: real): (r: real)
    ensures r == offset + delta || r == offset
    ensures offset + delta >= 0.0 ==> r == offset + delta
    ensures offset + delta < 0.0 ==> r == offset
    ensures offset >= 0.0 ==> r >= 0.0
  {
    if offset + delta >= 0.0 then offset + delta else offset
  }

  function RightDragAll(offset: real, deltas: seq<real>): real
    decreases |deltas|
  {
    if deltas == [] then offset else RightDragAll(RightDrag(offset, deltas[0]), deltas[1..])
  }

  /** The today tracker is the backlog tracker mirrored: same rule with both signs flipped. */
  lemma RightDragMirrorsLeftDrag(offset: real, delta: real)
    ensures RightDrag(offset, delta) == -BacklogScreen.LeftDrag(-offset, -delta)
  {
  }

  /** However the finger moves, an offset that starts at or right of 0 never becomes negative. */
  lemma {:induction false} RightDragAllNonNegative(offset: real, deltas: seq<real>)
    requires offset >= 0.0
    ensures RightDragAll(offset, deltas) >= 0.0
    decreases |deltas|
  {
    if deltas != [] {
      RightDragAllNonNegative(RightDrag(offset, deltas[0]), deltas[1..]);
    }
  }

  /** Leftward movement never accumulates: from a resting row, purely leftward deltas leave it at 0. */
  lemma {:induction false} LeftwardDeltasIgnored(deltas: seq<real>)
    requires forall i :: 0 <= i < |deltas| ==> deltas[i] <= 0.0
    ensures RightDragAll(0.0, deltas) == 0.0
    decreases |deltas|
  {
    if deltas != [] {
      LeftwardDeltasIgnored(deltas[1..]);
    }
  }

  /** Release fires a swipe exactly past the threshold; 200 itself does not fire. */
  predicate RightSwipeFires(offset: real)
  {
    offset > SwipeThreshold
  }

  /** The swipe tracker of one today row. */
  class TodaySwipe {
    const item: TodoItem
    var offsetX: real

    ghost predicate Valid()
      reads this
    {
      offsetX >= 0.0
    }

    constructor (item: TodoItem)
      ensures this.item == item && offsetX == 0.0 && Valid()
    {
      this.item := item;
      offsetX := 0.0;
    }

    method OnHorizontalDrag(dragAmount: real)
      requires Valid()
      modifies this
      ensures Valid()
      ensures offsetX == RightDrag(old(offsetX), dragAmount)
    {
      if offsetX + dragAmount >= 0.0 {
        offsetX := offsetX + dragAmount;
      }
    }

    /** Release: the row's item is reported swiped once past the threshold; otherwise the row springs back to 0. */
    method OnDragEnd() returns (swiped: Option<TodoItem>)
      requires Valid()
      modifies this
      ensures Valid()
      ensures swiped.Some? <==> RightSwipeFires(old(offsetX))
      ensures swiped.Some? ==> swiped.value == item && offsetX == old(offsetX)
      ensures swiped.None? ==> offsetX == 0.0
    {
      if offsetX > SwipeThreshold {
        swiped := Some(item);
      } else {
        swiped := None;
        offsetX := 0.0;
      }
    }
  }

  // ---------------------------------------------------------------------------
  // One row

  /** The deadline line of a row: none, the D-day label, or the formatted day count. */
  datatype DeadlineLabel = NoLabel | DDayLabel | DaysLeftLabel(days: int)

  function DeadlineLabelFor(dDay: Option<int>): (l: DeadlineLabel)
    ensures l.NoLabel? <==> dDay.None?
    ensures l.DDayLabel? <==> dDay == Some(0)
    ensures l.DaysLeftLabel? ==> dDay == Some(l.days) && l.days != 0
  {
    match dDay
    case None => NoLabel
    case Some(d) => if d != 0 then DaysLeftLabel(d) else DDayLabel
  }

  predicate IsChecked(item: TodoItem)
  {
    item.todoStatus == Completed
  }

  /** A toggle reports the item's CURRENT status and its id, not the status it is toggled to. */
  function OnCheckedChange(item: TodoItem): (r: (TodoStatus, int))
    ensures r.1 == item.todoId
    ensures r.0 == Completed <==> IsChecked(item)
  {
    (item.todoStatus, item.todoId)
  }

  // ---------------------------------------------------------------------------
  // The screen body

  datatype TodayBody = EmptyTodoView | TodayTodoList(items: seq<TodoItem>)

  /** An empty list shows the empty view and never the list; a non-empty one shows exactly that list. */
  function TodayBodyFor(todayList: seq<TodoItem>): (b: TodayBody)
    ensures b.EmptyTodoView? <==> todayList == []
    ensures b.TodayTodoList? ==> b.items == todayList && |b.items| > 0
  {
    if todayList == [] then EmptyTodoView else TodayTodoList(todayList)
  }
}
