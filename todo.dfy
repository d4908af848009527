/**
 * The to-do item shared by every screen, and the pure list operations the
 * backlog view model applies to an ordered list of items: the item move used
 * for drag reordering, the filter used by swipe removal and the map used to
 * write a new deadline into the list.
 */
module Todo {
  import opened Wrappers

  datatype TodoStatus = Incomplete | Completed

  /** A to-do item; `todoId` is the identity used by every list operation. */
  datatype TodoItem = TodoItem(
    todoId: int,
    content: string,
    todoStatus: TodoStatus,
    isBookmark: bool,
    dDay: Option<int>,
    deadline: string)

  /** The item `TodoItemModel(content = content, todoId = todoId)`: all other fields at their defaults. */
  function NewTodo(content: string, todoId: int): TodoItem
  {
    TodoItem(todoId, content, Incomplete, false, None, "")
  }

  /** The ids of a list, in list order. */
  function Ids(s: seq<TodoItem>): (r: seq<int>)
    ensures |r| == |s|
    ensures forall i :: 0 <= i < |s| ==> r[i] == s[i].todoId
  {
    if s == [] then [] else [s[0].todoId] + Ids(s[1..])
  }

  /** No two positions of the list hold the same id. */
  ghost predicate UniqueIds(s: seq<TodoItem>)
  {
    forall i, j :: 0 <= i < j < |s| ==> s[i].todoId != s[j].todoId
  }

  /** Number of elements of `s` whose id is `id`. */
  function CountId(s: seq<TodoItem>, id: int): nat
  {
    if s == [] then 0 else (if s[0].todoId == id then 1 else 0) + CountId(s[1..], id)
  }

  // ---------------------------------------------------------------------------
  // Removal: `list.filter { it.todoId != id }`

  function RemoveById(s: seq<TodoItem>, id: int): (r: seq<TodoItem>)
    ensures |r| <= |s|
    ensures forall i :: 0 <= i < |r| ==> r[i].todoId != id
  {
    if s == [] then []
    else if s[0].todoId == id then RemoveById(s[1..], id)
    else [s[0]] + RemoveById(s[1..], id)
  }

  /** An item survives the removal exactly when it was in the list and has a different id. */
  lemma {:induction false} RemoveByIdMembers(s: seq<TodoItem>, id: int)
    ensures forall x :: x in RemoveById(s, id) <==> x in s && x.todoId != id
  {
    if s != [] {
      RemoveByIdMembers(s[1..], id);
      assert s == [s[0]] + s[1..];
    }
  }

  /** The filter works piecewise, so the surviving items keep their relative order. */
  lemma {:induction false} RemoveByIdConcat(a: seq<TodoItem>, b: seq<TodoItem>, id: int)
    ensures RemoveById(a + b, id) == RemoveById(a, id) + RemoveById(b, id)
  {
    if a == [] {
      assert a + b == b;
    } else {
      assert (a + b)[1..] == a[1..] + b;
      RemoveByIdConcat(a[1..], b, id);
    }
  }

  /** Exactly the elements carrying the id are dropped. */
  lemma {:induction false} RemoveByIdLength(s: seq<TodoItem>, id: int)
    ensures |RemoveById(s, id)| == |s| - CountId(s, id)
  {
    if s != [] {
      RemoveByIdLength(s[1..], id);
    }
  }

  /** A list that does not hold the id is left as it is. */
  lemma {:induction false} RemoveByIdAbsent(s: seq<TodoItem>, id: int)
    requires id !in Ids(s)
    ensures RemoveById(s, id) == s
  {
    if s != [] {
      assert Ids(s)[0] == s[0].todoId;
      assert Ids(s[1..]) == Ids(s)[1..];
      RemoveByIdAbsent(s[1..], id);
    }
  }

  /** In a list without duplicate ids the count of an id is 1 when present and 0 when absent. */
  lemma {:induction false} CountIdUnique(s: seq<TodoItem>, id: int)
    requires UniqueIds(s)
    ensures CountId(s, id) == if id in Ids(s) then 1 else 0
  {
    if s != [] {
      assert UniqueIds(s[1..]) by {
        forall i, j | 0 <= i < j < |s[1..]| ensures s[1..][i].todoId != s[1..][j].todoId {
          assert s[1..][i] == s[i + 1] && s[1..][j] == s[j + 1];
        }
      }
      CountIdUnique(s[1..], id);
      assert Ids(s[1..]) == Ids(s)[1..];
      assert Ids(s) == [s[0].todoId] + Ids(s[1..]);
      if s[0].todoId == id {
        assert id !in Ids(s[1..]) by {
          forall k | 0 <= k < |Ids(s[1..])| ensures Ids(s[1..])[k] != id {
            assert Ids(s[1..])[k] == s[k + 1].todoId;
          }
        }
      }
    }
  }

  /** With unique ids, removing a present id shortens the list by one; an absent id leaves it unchanged. */
  lemma RemoveByIdUnique(s: seq<TodoItem>, id: int)
    requires UniqueIds(s)
    ensures id in Ids(s) ==> |RemoveById(s, id)| == |s| - 1
    ensures id !in Ids(s) ==> RemoveById(s, id) == s
    ensures id !in Ids(RemoveById(s, id))
  {
    RemoveByIdLength(s, id);
    CountIdUnique(s, id);
    if id !in Ids(s) {
      RemoveByIdAbsent(s, id);
    }
    RemoveByIdMembers(s, id);
    var r := RemoveById(s, id);
    forall k | 0 <= k < |r| ensures Ids(r)[k] != id {
      assert r[k] in r;
    }
  }

  // ---------------------------------------------------------------------------
  // Deadline update: `list.map { if (it.todoId == u.todoId) u else it }`

  function ReplaceById(s: seq<TodoItem>, u: TodoItem): (r: seq<TodoItem>)
    ensures |r| == |s|
  {
    if s == [] then []
    else [if s[0].todoId == u.todoId then u else s[0]] + ReplaceById(s[1..], u)
  }

  /** Pointwise: each element with `u`'s id becomes `u`, every other element is kept, and the length is kept. */
  lemma {:induction false} ReplaceByIdAt(s: seq<TodoItem>, u: TodoItem)
    ensures |ReplaceById(s, u)| == |s|
    ensures forall i :: 0 <= i < |s| ==>
      ReplaceById(s, u)[i] == if s[i].todoId == u.todoId then u else s[i]
  {
    if s != [] {
      ReplaceByIdAt(s[1..], u);
      var r := ReplaceById(s, u);
      forall i | 0 <= i < |s| ensures r[i] == if s[i].todoId == u.todoId then u else s[i] {
        if i > 0 {
          assert r[i] == ReplaceById(s[1..], u)[i - 1];
        }
      }
    }
  }

  /** The ids, and so the order of items by id, are untouched by the replacement. */
  lemma ReplaceByIdIds(s: seq<TodoItem>, u: TodoItem)
    ensures Ids(ReplaceById(s, u)) == Ids(s)
  {
    ReplaceByIdAt(s, u);
  }

  /** Writing the same item twice is the same as writing it once. */
  lemma ReplaceByIdIdempotent(s: seq<TodoItem>, u: TodoItem)
    ensures ReplaceById(ReplaceById(s, u), u) == ReplaceById(s, u)
  {
    ReplaceByIdAt(s, u);
    ReplaceByIdAt(ReplaceById(s, u), u);
  }

  // ---------------------------------------------------------------------------
  // Reordering: move the element at `from` to position `to`

  function RemoveAt<T>(s: seq<T>, i: nat): seq<T>
    requires i < |s|
  {
    s[..i] + s[i + 1..]
  }

  function InsertAt<T>(s: seq<T>, i: nat, x: T): seq<T>
    requires i <= |s|
  {
    s[..i] + [x] + s[i..]
  }

  /** Array-move semantics: take the element out of `from` and put it back in at `to`. */
  function Move<T>(s: seq<T>, from: nat, to: nat): (r: seq<T>)
    requires from < |s| && to < |s|
    ensures |r| == |s| && r[to] == s[from]
  {
    InsertAt(RemoveAt(s, from), to, s[from])
  }

  lemma InsertThenRemove<T>(s: seq<T>, i: nat, x: T)
    requires i <= |s|
    ensures RemoveAt(InsertAt(s, i, x), i) == s
  {
    var t := InsertAt(s, i, x);
    assert t[..i] == s[..i];
    assert t[i + 1..] == s[i..];
  }

  lemma RemoveThenInsert<T>(s: seq<T>, i: nat)
    requires i < |s|
    ensures InsertAt(RemoveAt(s, i), i, s[i]) == s
  {
    var r := RemoveAt(s, i);
    assert r[..i] == s[..i];
    assert r[i..] == s[i + 1..];
  }

  /** The moved element lands at `to`, the length is kept and the list is a permutation of the old one. */
  lemma MoveSpec<T>(s: seq<T>, from: nat, to: nat)
    requires from < |s| && to < |s|
    ensures |Move(s, from, to)| == |s|
    ensures Move(s, from, to)[to] == s[from]
    ensures multiset(Move(s, from, to)) == multiset(s)
  {
    var r := RemoveAt(s, from);
    assert s == s[..from] + [s[from]] + s[from + 1..];
    assert multiset(s) == multiset(r) + multiset{s[from]};
    assert r == r[..to] + r[to..];
  }

  /** Moving back undoes a move. */
  lemma MoveRoundTrip<T>(s: seq<T>, from: nat, to: nat)
    requires from < |s| && to < |s|
    ensures Move(Move(s, from, to), to, from) == s
  {
    var m := Move(s, from, to);
    MoveSpec(s, from, to);
    InsertThenRemove(RemoveAt(s, from), to, s[from]);
    RemoveThenInsert(s, from);
  }

  /** Elements before both indices and after both indices stay where they were. */
  lemma MoveKeepsOutside<T>(s: seq<T>, from: nat, to: nat, k: nat)
    requires from < |s| && to < |s| && k < |s|
    requires (k < from && k < to) || (k > from && k > to)
    ensures Move(s, from, to)[k] == s[k]
  {
    var r := RemoveAt(s, from);
    if k < from {
      assert r[k] == s[k];
    } else {
      assert r[k - 1] == s[k];
    }
  }
}
