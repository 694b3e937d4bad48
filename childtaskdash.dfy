/** The family task dashboard: one card per child, each showing that child's
    daily tasks from a map keyed by the child's `_id`, a completion count and
    progress bar, and tabs filtering by period or frequency. */
module FamilyDashboard {
  import opened Common

  datatype ChildSummary = ChildSummary(id: string, name: string, points: int)

  /** A task with its `status` ('pending', 'done', ...), `frequency`
      ('daily', 'weekly') and `period` ('morning', 'evening', 'any'). */
  datatype DailyTask = DailyTask(id: string, content: string, status: string, frequency: string,
                                 period: string, icon: string)

  // ---------------------------------------------------------------------
  // The task map built on fetch
  // ---------------------------------------------------------------------

  /** `childrenData.reduce((acc, child, index) => { acc[child._id] = tasksData[index]; ... }, {})`:
      a later child with the same `_id` overwrites an earlier one. */
  function TaskMap(children: seq<ChildSummary>, tasksData: seq<seq<DailyTask>>): (m: map<string, seq<DailyTask>>)
    requires |tasksData| == |children|
    ensures forall id :: id in m <==> exists c :: c in children && c.id == id
  {
    if children == [] then map[]
    else
      var n := |children| - 1;
      var m := TaskMap(children[..n], tasksData[..n]);
      assert forall c :: c in children <==> c in children[..n] || c == children[n] by {
        assert children == children[..n] + [children[n]];
      }
      m[children[n].id := tasksData[n]]
  }

  predicate UniqueChildIds(children: seq<ChildSummary>)
  {
    forall i, j :: 0 <= i < j < |children| ==> children[i].id != children[j].id
  }

  /** With distinct ids, each child's entry is the task list fetched at the child's index. */
  lemma {:induction false} TaskMapAtIndex(children: seq<ChildSummary>, tasksData: seq<seq<DailyTask>>, i: nat)
    requires |tasksData| == |children| && UniqueChildIds(children) && i < |children|
    ensures children[i].id in TaskMap(children, tasksData)
    ensures TaskMap(children, tasksData)[children[i].id] == tasksData[i]
  {
    var n := |children| - 1;
    if i < n {
      assert children[n].id != children[i].id;
      assert children[..n][i] == children[i] && tasksData[..n][i] == tasksData[i];
      assert UniqueChildIds(children[..n]);
      TaskMapAtIndex(children[..n], tasksData[..n], i);
    }
  }

  // ---------------------------------------------------------------------
  // Views
  // ---------------------------------------------------------------------

  /** Every view below reads `tasks[childId]` and calls a method on it, so a
      child without an entry in the map throws a TypeError while rendering;
      the views return `None` (the progress bar `Throws`) for that throw. */
  predicate HasTaskList(tasks: map<string, seq<DailyTask>>, childId: string)
  {
    childId in tasks
  }

  /** The page renders without throwing only when every listed child has a task list. */
  predicate Renderable(children: seq<ChildSummary>, tasks: map<string, seq<DailyTask>>)
  {
    forall c :: c in children ==> HasTaskList(tasks, c.id)
  }

  /** `getCompletedTasksCount(childId)`. */
  function CompletedTasksCount(tasks: map<string, seq<DailyTask>>, childId: string): (n: Option<nat>)
    ensures n.None? <==> !HasTaskList(tasks, childId)
    ensures n.Some? ==> n.value <= |tasks[childId]|
    ensures n.Some? ==> (n.value == 0 <==> forall t :: t in tasks[childId] ==> t.status != "done")
    ensures n.Some? ==> (n.value == |tasks[childId]| <==> forall t :: t in tasks[childId] ==> t.status == "done")
  {
    if childId !in tasks then None
    else Some(CountWhere(tasks[childId], (t: DailyTask) => t.status == "done"))
  }

  /** `filterTasks(childId, tab)`. */
  function FilterTasks(tasks: map<string, seq<DailyTask>>, childId: string, tab: string): (r: Option<seq<DailyTask>>)
    ensures r.None? <==> !HasTaskList(tasks, childId)
    ensures r.Some? ==> Subseq(r.value, tasks[childId])
    ensures r.Some? && tab == "morning" ==>
      forall t :: t in r.value <==> t in tasks[childId] && t.period == "morning"
    ensures r.Some? && tab == "evening" ==>
      forall t :: t in r.value <==> t in tasks[childId] && t.period == "evening"
    ensures r.Some? && tab == "weekly" ==>
      forall t :: t in r.value <==> t in tasks[childId] && t.frequency == "weekly"
    ensures r.Some? && tab !in {"morning", "evening", "weekly"} ==> r.value == tasks[childId]
  {
    if childId !in tasks then None
    else
      var all := tasks[childId];
      var p: DailyTask -> bool :=
        if tab == "morning" then (t: DailyTask) => t.period == "morning"
        else if tab == "evening" then (t: DailyTask) => t.period == "evening"
        else if tab == "weekly" then (t: DailyTask) => t.frequency == "weekly"
        else (t: DailyTask) => true;
      FilterIsSubseq(all, p);
      Some(Filter(all, p))
  }

  /** What the progress bar is given. */
  datatype BarValue = Throws | NotANumber | Percent(value: real)

  /** The progress bar's `getCompletedTasksCount(id) / tasks[id].length * 100`,
      which has no guard: a child without tasks gives `NaN`, and a child
      without an entry in the map throws. */
  function ProgressValue(tasks: map<string, seq<DailyTask>>, childId: string): (r: BarValue)
    ensures r.Throws? <==> !HasTaskList(tasks, childId)
    ensures r.NotANumber? <==> HasTaskList(tasks, childId) && tasks[childId] == []
    ensures r.Percent? ==> 0.0 <= r.value <= 100.0
    ensures r.Percent? ==>
      IsPercentOf(r.value, CompletedTasksCount(tasks, childId).value, |tasks[childId]|)
    ensures r.Percent? ==> (r.value == 100.0 <==> forall t :: t in tasks[childId] ==> t.status == "done")
    ensures r.Percent? ==> (r.value == 0.0 <==> forall t :: t in tasks[childId] ==> t.status != "done")
  {
    match CompletedTasksCount(tasks, childId)
    case None => Throws
    case Some(done) =>
      var total := |tasks[childId]|;
      if total == 0 then NotANumber
      else Percent(Progress(done, total))
  }

  /** A task map built from a complete fetch covers every fetched child, so
      every card renders. */
  lemma FetchedMapIsRenderable(children: seq<ChildSummary>, tasksData: seq<seq<DailyTask>>)
    requires |tasksData| == |children|
    ensures Renderable(children, TaskMap(children, tasksData))
  {
  }

  /** When the children arrive but a task request fails, the new children are
      shown with the previous map: a child missing from that map makes the page throw. */
  lemma NewChildWithOldMapThrows(children: seq<ChildSummary>, oldTasks: map<string, seq<DailyTask>>, c: ChildSummary)
    requires c in children && c.id !in oldTasks
    ensures !Renderable(children, oldTasks)
    ensures CompletedTasksCount(oldTasks, c.id).None? && ProgressValue(oldTasks, c.id).Throws?
  {
  }

  // ---------------------------------------------------------------------
  // The page state
  // ---------------------------------------------------------------------

  class Dashboard {
    var children: seq<ChildSummary>
    var tasks: map<string, seq<DailyTask>>

    /** The page starts from the sample children and tasks it is given. */
    constructor (initialChildren: seq<ChildSummary>, initialTasks: map<string, seq<DailyTask>>)
      ensures children == initialChildren && tasks == initialTasks
    {
      children := initialChildren;
      tasks := initialTasks;
    }

    /** `fetchChildrenAndTasks`: the children list is replaced as soon as it
        arrives; the task map only once every child's tasks have arrived
        (`tasksData`, one parsed body per child, or `None` when a request or
        its JSON parse threw). The per-child requests do not check `res.ok`,
        so an error body would be stored as that child's list; here every
        body is taken to be a task list. */
    method FetchChildrenAndTasks(childrenData: Option<seq<ChildSummary>>, tasksData: Option<seq<seq<DailyTask>>>)
      requires childrenData.Some? && tasksData.Some? ==> |tasksData.value| == |childrenData.value|
      modifies this
      ensures childrenData.None? ==> children == old(children) && tasks == old(tasks)
      ensures childrenData.Some? ==> children == childrenData.value
      ensures childrenData.Some? && tasksData.None? ==> tasks == old(tasks)
      ensures childrenData.Some? && tasksData.Some? ==> tasks == TaskMap(childrenData.value, tasksData.value)
      ensures childrenData.Some? && tasksData.Some? ==> Renderable(children, tasks)
    {
      if childrenData.None? {
        return;
      }
      children := childrenData.value;
      if tasksData.None? {
        return;
      }
      var data := tasksData.value;
      var acc: map<string, seq<DailyTask>> := map[];
      var index := 0;
      while index < |children|
        invariant 0 <= index <= |children| && children == childrenData.value
        invariant acc == TaskMap(children[..index], data[..index])
      {
        assert children[..index + 1][..index] == children[..index];
        assert data[..index + 1][..index] == data[..index];
        acc := acc[children[index].id := data[index]];
        index := index + 1;
      }
      assert children[..index] == children && data[..index] == data;
      tasks := acc;
    }

    /** `completeTask`: the server's copy replaces the tasks with that `_id` in
        that child's list; every other list is untouched. */
    method CompleteTask(childId: string, taskId: string, updatedTask: Option<DailyTask>)
      requires childId in tasks
      modifies this
      ensures updatedTask.None? ==> tasks == old(tasks)
      ensures tasks.Keys == old(tasks).Keys
      ensures updatedTask.Some? ==>
                |tasks[childId]| == |old(tasks)[childId]| &&
                forall i :: 0 <= i < |tasks[childId]| ==>
                  tasks[childId][i] == if old(tasks)[childId][i].id == taskId then updatedTask.value
                                       else old(tasks)[childId][i]
      ensures forall id :: id in tasks && id != childId ==> tasks[id] == old(tasks)[id]
      ensures children == old(children)
    {
      if updatedTask.None? {
        return;
      }
      var replaced := MapWhere(tasks[childId], (t: DailyTask) => t.id == taskId, (t: DailyTask) => updatedTask.value);
      tasks := tasks[childId := replaced];
    }
  }
}
