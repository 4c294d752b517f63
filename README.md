# Task manager: verified model of the store, the overdue check and the list

A model of the logic underneath a small Swing to-do application. Users add
tasks (a name, a due date, a priority); the application keeps them in an
in-memory list, shows them one per line in a window, and a timer repeatedly
runs a check that warns about every task whose due date has passed.

The model has seven modules:

- `Tasks` (Tasks.dfy): the `Task` record and the Java value types it is built
  from. `Int32` is Java's `int` (the priority), `Int64` is Java's `long`, and
  `Date` is a `java.util.Date` as its millisecond count. `Date.Before` is the
  strict comparison of `Date.before`. `Task` is a datatype: the Java class
  sets its three fields in its constructor and nothing assigns them later,
  so the getters are the datatype's destructors and a task cannot change.
- `TaskStore` (TaskStore.dfy): the class `TaskManager`, whose list of tasks is
  a `seq<Task>` field that `AddTask` extends at the end.
- `Monitor` (Monitor.dfy): one check pass as pure functions. `Overdue(tasks, now)`
  is the list of warnings the pass shows. `OverdueIndices(tasks, now)` is an
  independent reference: the store positions that get a warning. Each warning
  is a `Notification(title, message)` with title `Task Overdue` and message
  `Task '<name>' is overdue!`.
- `Display` (Display.dfy): the list model's text. `Render(tasks)` gives one
  line `<name> (Priority: <p>)` per task. `ParseLine` reads a line back.
- `Decimal` (Decimal.dfy): the decimal text that Java's string concatenation
  gives an `int`, and a reader for it.
- `App` (App.dfy): the class `TaskManagerApp`. It owns the store and the list
  model shown in the window. Its object invariant `Valid()` says that the
  list model shows exactly the stored tasks. It has `RefreshTaskList`, the
  `CheckDueDates` pass and `ShowAddTaskDialog`, the dialog's commit rule. Two
  client methods, `OverdueScenario` and `RejectedInputScenario`, use only
  these contracts.
- `Wrappers` (Wrappers.dfy): `Option`.

The instant "now" of a check pass is a parameter of `CheckDueDates`. The
outcomes of the two field parsers are fields of `DialogInput` (`None` when
the parser rejected the text). Each warning and the invalid-input message
are returned as values instead of being shown in a dialog.

## Model

| member | source | states |
|---|---|---|
| `TaskStore.TaskManager.constructor` | TaskManagerApp.java:40-42 | a new manager holds no tasks |
| `TaskStore.TaskManager.AddTask` | TaskManagerApp.java:44-46 | the task is appended at the end: the length grows by exactly one, the last task is the one added, and every earlier task keeps its position and value; equal tasks are not merged |
| `TaskStore.TaskManager.GetTasks` | TaskManagerApp.java:48-50 | returns exactly the tasks added so far, in the order they were added |
| `App.TaskManagerApp.constructor` | TaskManagerApp.java:59-66 | a new application has an empty store and an empty list model, and the list model shows the store |
| `App.TaskManagerApp.RefreshTaskList` | TaskManagerApp.java:148-155 | after clearing and refilling, the list model is exactly `Render` of the store: one line per task, in store order; the store is not touched |
| `App.TaskManagerApp.CheckDueDates` | TaskManagerApp.java:133-142 | the warnings one pass shows, against a single `now`, are exactly `Overdue(store, now)`; the pass changes nothing, so two passes over the same store at the same `now` show the same warnings |
| `App.TaskManagerApp.ShowAddTaskDialog` | TaskManagerApp.java:115-130 | a confirmed dialog whose date and priority both parsed appends `Task(name, date, priority)` and keeps the list model in step with the store; a confirmed dialog with a field that failed to parse returns the message "Invalid input. Please try again." and changes nothing; a cancelled or closed dialog returns no message and changes nothing |
| `Monitor.Overdue` | TaskManagerApp.java:137-141 | a pass never shows more warnings than there are tasks |
| `Monitor.OverdueIndicesExact` | TaskManagerApp.java:138 | a store position gets a warning if and only if its task's due date is strictly before `now`; a task due exactly at `now` or later gets none |
| `Monitor.OverdueIndicesIncreasing` | TaskManagerApp.java:137 | the warned positions strictly increase, so each overdue task is warned about exactly once, in store order |
| `Monitor.OverdueMatchesIndices` | TaskManagerApp.java:137-141 | the k-th warning of a pass is `Notify` of the task at the k-th overdue position, with title "Task Overdue" and message "Task '<name>' is overdue!"; an empty store gives no warnings |
| `Monitor.OverdueAppend` | TaskManagerApp.java:137-141 | the warnings for a store `first + rest` are those for `first` followed by those for `rest`: appending tasks never changes the warnings for the earlier ones |
| `Monitor.OverdueStaysReported` | TaskManagerApp.java:133-142 | no state is kept between passes: a task warned about at `now` is warned about again by every pass at a later instant |
| `Monitor.OneOverdueOfTwo` | TaskManagerApp.java:137-141 | with one overdue and one pending task in the store, in either order, the pass shows exactly one warning, for the overdue task |
| `Monitor.MessageNamesTask` | TaskManagerApp.java:139 | the warning message contains the task's name whole, and the name can be read back from it |
| `Display.Render` | TaskManagerApp.java:152-154 | the list has exactly as many lines as the store has tasks |
| `Display.RenderAt` | TaskManagerApp.java:152-154 | line `i` of the list shows the task at store position `i` |
| `Display.RenderAppend` | TaskManagerApp.java:148-155 | the list for a longer store is the list for the shorter store followed by the lines of the added tasks |
| `Display.LineRoundTrip` | TaskManagerApp.java:153 | the line `name (Priority: p)` determines the task's name and priority: reading it back gives exactly both |
| `Decimal.NatToString` | TaskManagerApp.java:153 | the text of a non-negative number is a non-empty run of decimal digits with no leading zero, except for 0 itself |
| `Decimal.NatRoundTrip` | TaskManagerApp.java:153 | reading back the digits of a non-negative number gives that number |
| `Decimal.IntRoundTrip` | TaskManagerApp.java:153 | reading back the text of any `int` priority, negative ones included, gives that priority |

## Left out

- The Swing user interface: window and dialog layout, the buttons, the `JOptionPane` dialogs that show warnings and messages, and `main` (TaskManagerApp.java:68-90, 102-116, 144-146, 157-164). Warnings and the invalid-input message are returned as values. The warning severity (`WARNING_MESSAGE`) is the same for every warning and is not part of `Notification`.
- The `java.util.Timer` that runs the check every 10 seconds from time zero (TaskManagerApp.java:92-100). It runs on its own thread while tasks are added on the event thread. The model has no concurrency: one check pass is one sequential call.
- The wall clock `new Date()` (TaskManagerApp.java:135). The instant is a parameter, captured once per pass.
- `SimpleDateFormat("yyyy-MM-dd HH:mm").parse` and `Integer.parseInt` (TaskManagerApp.java:121-122). Their lenient date rules and number syntax are not modelled; only whether each succeeded, and the resulting value, reach the model. A parsed date is any 64-bit millisecond instant.
- `TaskStore.TaskManager.GetTasks`: the Java method returns the live `ArrayList`, so a caller that keeps it sees later additions; the model returns the current contents as a value.
- `TaskStore.TaskManager.AddTask`: an `ArrayList` cannot grow past `Integer.MAX_VALUE` elements; the model's sequence is unbounded.
- The `taskManager` field is declared without `final` but is assigned only in the constructor, so the model makes it a constant.
