/**
 The task store: an in-memory list of tasks kept in insertion order. Tasks are
 only ever appended; there is no removal, no update and no deduplication.
 */
module TaskStore {

  import opened Tasks

  class TaskManager {
    /** The `ArrayList<Task>` the manager owns, as its current contents. */
    var tasks: seq<Task>

    constructor ()
      ensures tasks == []
    {
      tasks := [];
    }

    /** Appends `task` at the end; every earlier task keeps its position. */
    method AddTask(task: Task)
      modifies this
      ensures tasks == old(tasks) + [task]
      ensures |tasks| == |old(tasks)| + 1 && tasks[|tasks| - 1] == task
      ensures forall i :: 0 <= i < |old(tasks)| ==> tasks[i] == old(tasks)[i]
    {
      tasks := tasks + [task];
    }

    /** Every task added so far, in the order it was added. */
    method GetTasks() returns (r: seq<Task>)
      ensures r == tasks
    {
      r := tasks;
    }
  }
}
