/**
 The application object: it owns the task store and the list model that the
 window displays. Three behaviours of it are modelled: rebuilding the list
 model from the store, one due-date check pass, and the rule that decides
 whether the add-task dialog appends a task.
 */
module App {

  import opened Wrappers
  import opened Tasks
  import opened TaskStore
  import opened Monitor
  import opened Display

  /** What `JOptionPane.showConfirmDialog` returned. */
  datatype DialogAnswer = OkOption | CancelOption | ClosedOption

  /**
   What the user entered in the add-task dialog. The name is the text field as
   typed; the due date and the priority are the outcomes of parsing their text
   fields, `None` when the parser rejected the text.
   */
  datatype DialogInput = DialogInput(answer: DialogAnswer, name: string, dueDate: Option<Date>, priority: Option<Int32>)

  const InvalidInputMessage: string := "Invalid input. Please try again."

  /** The dialog leads to a new task only when it was confirmed and both fields parsed. */
  predicate Commits(input: DialogInput) {
    input.answer == OkOption && input.dueDate.Some? && input.priority.Some?
  }

  class TaskManagerApp {
    const taskManager: TaskManager
    /** The entries of the `DefaultListModel` shown in the window. */
    var taskListModel: seq<string>

    /** The list model shows exactly the stored tasks. */
    ghost predicate Valid()
      reads this, taskManager
    {
      taskListModel == Render(taskManager.tasks)
    }

    /** A new application starts with an empty store and an empty list. */
    constructor ()
      ensures Valid() && fresh(taskManager)
      ensures taskManager.tasks == [] && taskListModel == []
    {
      taskManager := new TaskManager();
      taskListModel := [];
      new;
      RefreshTaskList();
    }

    /** Clears the list model and refills it with one entry per stored task, in store order. */
    method RefreshTaskList()
      modifies this`taskListModel
      ensures Valid()
      ensures taskListModel == Render(taskManager.tasks)
    {
      taskListModel := [];
      var tasks := taskManager.GetTasks();
      for i := 0 to |tasks|
        invariant taskListModel == Render(tasks[..i])
      {
        assert tasks[..i + 1][..i] == tasks[..i];
        taskListModel := taskListModel + [Line(tasks[i])];
      }
      assert tasks[..|tasks|] == tasks;
    }

    /**
     One due-date check pass against the instant `now`, read once by the
     caller: the warnings shown, in the order they are shown. The pass changes
     nothing, so two passes over the same store at the same instant show the
     same warnings.
     */
    method CheckDueDates(now: Date) returns (shown: seq<Notification>)
      ensures shown == Overdue(taskManager.tasks, now)
    {
      var tasks := taskManager.GetTasks();
      shown := [];
      for i := 0 to |tasks|
        invariant shown == Overdue(tasks[..i], now)
      {
        assert tasks[..i + 1][..i] == tasks[..i];
        if tasks[i].dueDate.Before(now) {
          shown := shown + [Notification(OverdueTitle, "Task '" + tasks[i].name + "' is overdue!")];
        }
      }
      assert tasks[..|tasks|] == tasks;
    }

    /**
     The commit rule of the add-task dialog. A confirmed dialog whose date and
     priority both parsed appends the task and refreshes the list; a confirmed
     dialog with a field that did not parse shows the invalid-input message and
     changes nothing; a cancelled or closed dialog changes nothing.
     */
    method ShowAddTaskDialog(input: DialogInput) returns (alert: Option<string>)
      requires Valid()
      modifies this`taskListModel, taskManager
      ensures Valid()
      ensures Commits(input) ==>
        taskManager.tasks == old(taskManager.tasks) + [Task(input.name, input.dueDate.value, input.priority.value)]
      ensures !Commits(input) ==> taskManager.tasks == old(taskManager.tasks) && taskListModel == old(taskListModel)
      ensures alert == if input.answer == OkOption && !Commits(input) then Some(InvalidInputMessage) else None
    {
      alert := None;
      if input.answer == OkOption {
        if input.dueDate.Some? && input.priority.Some? {
          var task := Task(input.name, input.dueDate.value, input.priority.value);
          taskManager.AddTask(task);
          RefreshTaskList();
        } else {
          alert := Some(InvalidInputMessage);
        }
      }
    }
  }

  /** A client of the application: a task added through the dialog and overdue at `now` is reported by every pass. */
  method OverdueScenario(task: Task, now: Date)
    requires IsOverdue(task, now)
  {
    var app := new TaskManagerApp();
    var alert := app.ShowAddTaskDialog(DialogInput(OkOption, task.name, Some(task.dueDate), Some(task.priority)));
    assert alert == None && app.taskManager.tasks == [task];
    var first := app.CheckDueDates(now);
    var second := app.CheckDueDates(now);
    assert [task][..0] == [];
    assert first == second == [Notify(task)];
  }

  /** A client of the application: a cancelled dialog and a dialog whose priority did not parse add nothing. */
  method RejectedInputScenario(name: string, due: Date, priority: Int32)
  {
    var app := new TaskManagerApp();
    var alert := app.ShowAddTaskDialog(DialogInput(CancelOption, name, Some(due), Some(priority)));
    assert alert == None;
    alert := app.ShowAddTaskDialog(DialogInput(OkOption, name, Some(due), None));
    assert alert == Some(InvalidInputMessage);
    assert app.taskManager.tasks == [] && app.taskListModel == [];
  }
}
