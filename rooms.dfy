/** The rooms of the game screen: which task cards a room lists (`getRoomTasks`) and the
    completion bar drawn under each room icon (`getRoomProgress`). The two select a room's
    todos through DIFFERENT fields: the list reads the embedded `todo.category`, the bar
    reads the flat `todo.category_id`. */
module Rooms {
  import opened Js
  import opened Domain

  /** `getRoomTasks()`: no categories yet means no tasks; otherwise the todos whose embedded
      category is the current room's. Indexing `categories[currentRoom]` past the end would
      throw, so the current room is an index into a non-empty list. */
  function RoomTasks(todos: seq<Todo>, categories: seq<Category>, currentRoom: nat): (r: seq<Todo>)
    requires categories == [] || currentRoom < |categories|
    ensures categories == [] ==> r == []
    ensures categories != [] ==>
              forall i :: 0 <= i < |r| ==> r[i].category.categoryId == categories[currentRoom].categoryId
  {
    if |categories| == 0 then []
    else Filter(todos, EmbeddedIn(categories[currentRoom].categoryId))
  }

  /** The todos the progress bar of room `categoryId` measures. */
  function FiledTasks(todos: seq<Todo>, categoryId: int): (r: seq<Todo>)
    ensures forall i :: 0 <= i < |r| ==> r[i].categoryId == categoryId
  {
    Filter(todos, FiledUnder(categoryId))
  }

  /** How many of those are completed. */
  function CompletedCount(todos: seq<Todo>, categoryId: int): (c: nat)
    ensures c <= |FiledTasks(todos, categoryId)|
  {
    |Filter(FiledTasks(todos, categoryId), IsCompleted())|
  }

  /** `getRoomProgress(categoryId)`: 0 for an empty room, otherwise
      `Math.round(completed / total * 100)`, a whole percentage. */
  function RoomProgress(todos: seq<Todo>, categoryId: int): (p: int)
    ensures 0 <= p <= 100
  {
    var roomTasks := FiledTasks(todos, categoryId);
    if |roomTasks| == 0 then 0
    else
      var completed := CompletedCount(todos, categoryId);
      ProgressBounds(completed, |roomTasks|);
      MathRound(completed as real / |roomTasks| as real * 100.0)
  }

  /** `Math.round(c / n * 100)` lies in [0, 100] and is the integer quotient
      `(200*c + n) / (2*n)`. */
  lemma ProgressBounds(c: nat, n: nat)
    requires 0 < n && c <= n
    ensures MathRound(c as real / n as real * 100.0) == (200 * c + n) / (2 * n)
    ensures 0 <= (200 * c + n) / (2 * n) <= 100
  {
    ScaledFraction(c, n);
    RoundFraction(100 * c, n);
    var q := (200 * c + n) / (2 * n);
    assert 2 * n * q <= 200 * c + n;
    NegativeFactor(2 * n, q - 101);
  }

  lemma ScaledFraction(c: nat, n: nat)
    requires n > 0
    ensures c as real / n as real * 100.0 == (100 * c) as real / n as real
  {
    var x := c as real / n as real;
    assert x * n as real == c as real;
    assert (x * 100.0) * n as real == (100 * c) as real;
  }

  /** Room progress as an integer formula: the nearest whole percentage of completed
      todos, halves rounded up. */
  lemma {:induction false} RoomProgressNearest(todos: seq<Todo>, categoryId: int)
    requires |FiledTasks(todos, categoryId)| > 0
    ensures var n := |FiledTasks(todos, categoryId)|;
            var c := CompletedCount(todos, categoryId);
            var p := RoomProgress(todos, categoryId);
            p == (200 * c + n) / (2 * n) && 2 * n * p - n <= 200 * c < 2 * n * p + n
  {
    var n := |FiledTasks(todos, categoryId)|;
    var c := CompletedCount(todos, categoryId);
    ProgressBounds(c, n);
  }

  /** A room's bar is full exactly when at most one todo in two hundred is still open:
      round-half-up reaches 100 before the last todo is done once a room has 200 todos. */
  lemma RoomProgressFull(todos: seq<Todo>, categoryId: int)
    requires |FiledTasks(todos, categoryId)| > 0
    ensures var n := |FiledTasks(todos, categoryId)|;
            var open := n - CompletedCount(todos, categoryId);
            RoomProgress(todos, categoryId) == 100 <==> 200 * open <= n
  {
    RoomProgressNearest(todos, categoryId);
    FullExactly(CompletedCount(todos, categoryId), |FiledTasks(todos, categoryId)|,
                RoomProgress(todos, categoryId));
  }

  /** A room's bar is empty exactly when fewer than one todo in two hundred is done. */
  lemma RoomProgressEmpty(todos: seq<Todo>, categoryId: int)
    requires |FiledTasks(todos, categoryId)| > 0
    ensures var n := |FiledTasks(todos, categoryId)|;
            RoomProgress(todos, categoryId) == 0 <==> 200 * CompletedCount(todos, categoryId) < n
  {
    RoomProgressNearest(todos, categoryId);
    EmptyExactly(CompletedCount(todos, categoryId), |FiledTasks(todos, categoryId)|,
                 RoomProgress(todos, categoryId));
  }

  /** The nearest percentage `p` of `c` out of `n` is 100 exactly when `200*(n - c) <= n`. */
  lemma FullExactly(c: nat, n: nat, p: int)
    requires 0 < n && c <= n && 0 <= p <= 100
    requires 2 * n * p - n <= 200 * c < 2 * n * p + n
    ensures p == 100 <==> 200 * (n - c) <= n
  {
    if p == 100 {
      assert 2 * n * p == 200 * n;
    } else {
      MulMonotone(2 * n, p, 99);
      assert 2 * n * 99 == 198 * n;
    }
  }

  /** The nearest percentage `p` of `c` out of `n` is 0 exactly when `200*c < n`. */
  lemma EmptyExactly(c: nat, n: nat, p: int)
    requires 0 < n && c <= n && 0 <= p <= 100
    requires 2 * n * p - n <= 200 * c < 2 * n * p + n
    ensures p == 0 <==> 200 * c < n
  {
    if p != 0 {
      MulMonotone(2 * n, 1, p);
    }
  }

  /** A room none of whose todos (by flat `category_id`) is completed shows 0. */
  lemma RoomProgressNoneCompleted(todos: seq<Todo>, categoryId: int)
    requires forall i :: 0 <= i < |todos| && todos[i].categoryId == categoryId ==> !todos[i].completed
    ensures RoomProgress(todos, categoryId) == 0
  {
    var room := FiledTasks(todos, categoryId);
    forall i | 0 <= i < |room| ensures !IsCompleted()(room[i]) {
      FilterMembership(todos, FiledUnder(categoryId), room[i]);
    }
    FilterKeepsNone(room, IsCompleted());
    if |room| > 0 {
      RoomProgressEmpty(todos, categoryId);
    }
  }

  /** A room with at least one todo, all of them completed, shows 100. */
  lemma RoomProgressAllCompleted(todos: seq<Todo>, categoryId: int)
    requires exists i :: 0 <= i < |todos| && todos[i].categoryId == categoryId
    requires forall i :: 0 <= i < |todos| && todos[i].categoryId == categoryId ==> todos[i].completed
    ensures RoomProgress(todos, categoryId) == 100
  {
    var room := FiledTasks(todos, categoryId);
    var i :| 0 <= i < |todos| && todos[i].categoryId == categoryId;
    FilterMembership(todos, FiledUnder(categoryId), todos[i]);
    forall k | 0 <= k < |room| ensures IsCompleted()(room[k]) {
      FilterMembership(todos, FiledUnder(categoryId), room[k]);
    }
    FilterKeepsAll(room, IsCompleted());
    RoomProgressFull(todos, categoryId);
  }

  /** One of three todos done shows 33 (a third, rounded). */
  lemma RoomProgressOneOfThree(a: Todo, b: Todo, c: Todo, categoryId: int)
    requires a.categoryId == b.categoryId == c.categoryId == categoryId
    requires a.completed && !b.completed && !c.completed
    ensures RoomProgress([a, b, c], categoryId) == 33
  {
    FilterKeepsAll([a, b, c], FiledUnder(categoryId));
    assert [a, b, c] == [a] + [b, c];
    FilterConcat([a], [b, c], IsCompleted());
    FilterKeepsNone([b, c], IsCompleted());
    RoomProgressNearest([a, b, c], categoryId);
  }

  /** A todo is listed in the current room exactly when it is one of the todos and its
      embedded category is the room's category. */
  lemma RoomTasksMembership(todos: seq<Todo>, categories: seq<Category>, currentRoom: nat, t: Todo)
    requires currentRoom < |categories|
    ensures (t in RoomTasks(todos, categories, currentRoom)
             <==> t in todos && t.category.categoryId == categories[currentRoom].categoryId)
  {
    FilterMembership(todos, EmbeddedIn(categories[currentRoom].categoryId), t);
  }

  /** The room list keeps the todos' original order: listing the todos of two consecutive
      stretches is listing each stretch in turn. */
  lemma RoomTasksInOrder(front: seq<Todo>, back: seq<Todo>, categories: seq<Category>, currentRoom: nat)
    requires categories == [] || currentRoom < |categories|
    ensures RoomTasks(front + back, categories, currentRoom)
              == RoomTasks(front, categories, currentRoom) + RoomTasks(back, categories, currentRoom)
  {
    if |categories| > 0 {
      FilterConcat(front, back, EmbeddedIn(categories[currentRoom].categoryId));
    }
  }

  /** When every todo's two category fields agree, the cards listed in a room are exactly
      the todos its progress bar measures. */
  lemma ListedAreMeasured(todos: seq<Todo>, categories: seq<Category>, currentRoom: nat)
    requires currentRoom < |categories|
    requires forall i :: 0 <= i < |todos| ==> Consistent(todos[i])
    ensures RoomTasks(todos, categories, currentRoom)
              == FiledTasks(todos, categories[currentRoom].categoryId)
  {
    var id := categories[currentRoom].categoryId;
    FilterSameTest(todos, EmbeddedIn(id), FiledUnder(id));
  }

  /** When the two fields disagree, a todo can be listed in one room and counted in the
      progress of another. */
  lemma ListedAndMeasuredCanDiverge(t: Todo, categories: seq<Category>)
    requires |categories| == 2
    requires categories[0].categoryId == t.categoryId
    requires categories[1].categoryId == t.category.categoryId
    requires !Consistent(t)
    ensures RoomTasks([t], categories, 0) == []
    ensures RoomTasks([t], categories, 1) == [t]
    ensures FiledTasks([t], categories[0].categoryId) == [t]
  {
  }
}
