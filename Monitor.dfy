/**
 The due-date monitor as pure functions: which tasks one check pass reports
 and what each report says. A pass compares every task, in store order,
 against one captured instant `now`; a task is overdue when its due date is
 strictly before `now`, and each overdue task yields one warning.
 */
module Monitor {

  import opened Tasks

  /** One warning shown to the user: `showNotification(title, message)`. */
  datatype Notification = Notification(title: string, message: string)

  const OverdueTitle: string := "Task Overdue"
  const MessagePrefix: string := "Task '"
  const MessageSuffix: string := "' is overdue!"

  predicate IsOverdue(t: Task, now: Date) {
    t.dueDate.Before(now)
  }

  function OverdueMessage(name: string): (message: string) {
    MessagePrefix + name + MessageSuffix
  }

  /** The warning a pass shows for an overdue task. */
  function Notify(t: Task): (note: Notification) {
    Notification(OverdueTitle, OverdueMessage(t.name))
  }

  /** The task name a warning message names. */
  function MessageName(message: string): (name: string)
    requires |message| >= |MessagePrefix| + |MessageSuffix|
  {
    message[|MessagePrefix|..|message| - |MessageSuffix|]
  }

  /** The message names its task: the name can be read back from it, so distinct names give distinct messages. */
  lemma MessageNamesTask(name: string)
    ensures |OverdueMessage(name)| == |MessagePrefix| + |name| + |MessageSuffix|
    ensures MessageName(OverdueMessage(name)) == name
  {
    var m := OverdueMessage(name);
    assert m[|MessagePrefix|..|m| - |MessageSuffix|] == name;
  }

  /** The warnings of one check pass over `tasks`, in the order they are shown. */
  function Overdue(tasks: seq<Task>, now: Date): (notes: seq<Notification>)
    ensures |notes| <= |tasks|
  {
    if tasks == [] then []
    else
      var last := tasks[|tasks| - 1];
      Overdue(tasks[..|tasks| - 1], now) + (if IsOverdue(last, now) then [Notify(last)] else [])
  }

  /** The store positions of the overdue tasks, in store order: a reference definition for `Overdue`. */
  function OverdueIndices(tasks: seq<Task>, now: Date): (positions: seq<int>) {
    if tasks == [] then []
    else
      OverdueIndices(tasks[..|tasks| - 1], now) + (if IsOverdue(tasks[|tasks| - 1], now) then [|tasks| - 1] else [])
  }

  /** A position is reported exactly when the task there is due strictly before `now`. */
  lemma {:induction false} OverdueIndicesExact(tasks: seq<Task>, now: Date)
    ensures forall i :: i in OverdueIndices(tasks, now) <==> 0 <= i < |tasks| && IsOverdue(tasks[i], now)
  {
    if tasks != [] {
      var front := tasks[..|tasks| - 1];
      OverdueIndicesExact(front, now);
      assert forall i :: 0 <= i < |front| ==> front[i] == tasks[i];
    }
  }

  /** The reported positions increase strictly: each overdue task is reported once, in store order. */
  lemma {:induction false} OverdueIndicesIncreasing(tasks: seq<Task>, now: Date)
    ensures forall j, k :: 0 <= j < k < |OverdueIndices(tasks, now)| ==>
      OverdueIndices(tasks, now)[j] < OverdueIndices(tasks, now)[k]
  {
    if tasks != [] {
      var front := tasks[..|tasks| - 1];
      OverdueIndicesIncreasing(front, now);
      OverdueIndicesExact(front, now);
      var r := OverdueIndices(front, now);
      assert forall j :: 0 <= j < |r| ==> r[j] in r;
    }
  }

  /** The k-th warning of a pass is the one for the task at the k-th overdue position. */
  lemma {:induction false} OverdueMatchesIndices(tasks: seq<Task>, now: Date)
    ensures |Overdue(tasks, now)| == |OverdueIndices(tasks, now)|
    ensures forall k :: 0 <= k < |OverdueIndices(tasks, now)| ==>
      0 <= OverdueIndices(tasks, now)[k] < |tasks| &&
      Overdue(tasks, now)[k] == Notify(tasks[OverdueIndices(tasks, now)[k]])
  {
    if tasks != [] {
      var front := tasks[..|tasks| - 1];
      OverdueMatchesIndices(front, now);
      assert forall i :: 0 <= i < |front| ==> front[i] == tasks[i];
    }
  }

  /** A pass over a longer store repeats the warnings of the shorter one, then warns about the rest. */
  lemma {:induction false} OverdueAppend(first: seq<Task>, rest: seq<Task>, now: Date)
    ensures Overdue(first + rest, now) == Overdue(first, now) + Overdue(rest, now)
    decreases |rest|
  {
    if rest == [] {
      assert first + rest == first;
    } else {
      var all := first + rest;
      assert all[..|all| - 1] == first + rest[..|rest| - 1];
      assert all[|all| - 1] == rest[|rest| - 1];
      OverdueAppend(first, rest[..|rest| - 1], now);
    }
  }

  /** Nothing is suppressed between passes: a task reported at `now` is reported again at any later instant. */
  lemma OverdueStaysReported(tasks: seq<Task>, now: Date, later: Date)
    requires now.time <= later.time
    ensures forall i :: i in OverdueIndices(tasks, now) ==> i in OverdueIndices(tasks, later)
  {
    OverdueIndicesExact(tasks, now);
    OverdueIndicesExact(tasks, later);
  }

  /** Of two stored tasks, in either order, only the one due before `now` is reported. */
  lemma OneOverdueOfTwo(overdue: Task, pending: Task, now: Date)
    requires IsOverdue(overdue, now) && !IsOverdue(pending, now)
    ensures Overdue([overdue, pending], now) == [Notify(overdue)]
    ensures Overdue([pending, overdue], now) == [Notify(overdue)]
  {
    assert [overdue, pending][..1] == [overdue];
    assert [pending, overdue][..1] == [pending];
    assert [overdue][..0] == [] && [pending][..0] == [];
  }
}
