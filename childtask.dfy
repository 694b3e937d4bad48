/** The fully local child task and reward board: children, tasks, rewards and
    comments live only in the page's state, every handler replaces one of
    those collections, and the charts are computed from them.
    Dates are day numbers (due dates) or millisecond timestamps (date added,
    completion history); translated labels are left to the presentation. */
module LocalTaskBoard {
  import opened Common

  /** The three droppable columns of the board. */
  datatype Status = Todo | InProgress | Completed

  /** The keys of the category table, in the order `Object.keys` lists them. */
  datatype Category = Homework | Chores | Exercise | Reading | Other
  const Categories: seq<Category> := [Homework, Chores, Exercise, Reading, Other]

  datatype Recurrence = NoRecurrence | Daily | Weekly | Monthly

  datatype Child = Child(id: int, name: string, age: int, points: int)

  datatype Task = Task(
    id: int,
    title: string,
    description: string,
    category: Category,
    priority: Priority,
    dueDate: int,
    recurring: Recurrence,
    dependency: Option<string>,
    status: Status,
    assignedTo: Option<int>,
    dateAdded: int,
    completionHistory: seq<int>)

  /** The fields of the "new task" and "edit task" forms. */
  datatype TaskDraft = TaskDraft(
    title: string,
    description: string,
    category: Category,
    priority: Priority,
    dueDate: int,
    recurring: Recurrence,
    dependency: Option<string>)

  /** What `editTask` spreads over a task: the edit form's fields, or a whole
      task object (the toggle button passes `{ ...task, status }`). */
  datatype TaskEdit = FormEdit(draft: TaskDraft) | WholeTask(task: Task)

  datatype Reward = Reward(id: int, name: string, points: int)

  datatype Comment = Comment(text: string, date: int)

  datatype SortKey = ByDateAdded | ByDueDate

  datatype CategoryCount = CategoryCount(category: Category, value: nat)
  datatype StatusCounts = StatusCounts(completed: nat, inProgress: nat, todo: nat)
  datatype CategoryRate = CategoryRate(category: Category, completionRate: int)
  datatype CompletionPoint = CompletionPoint(date: int, count: nat)

  /** What the drag-and-drop library reports when a drag ends. */
  datatype DragResult = DragResult(source: Status, destination: Option<Status>, draggableId: int)

  // ---------------------------------------------------------------------
  // Reducers
  // ---------------------------------------------------------------------

  /** The task `addTask` builds from the form. */
  function NewTask(draft: TaskDraft, id: int, assignedTo: Option<int>, now: int): (t: Task)
    ensures t.status == Todo && t.assignedTo == assignedTo && t.completionHistory == []
    ensures t.id == id && t.dateAdded == now && t.title == draft.title && t.dueDate == draft.dueDate
  {
    Task(id, draft.title, draft.description, draft.category, draft.priority, draft.dueDate,
         draft.recurring, draft.dependency, Todo, assignedTo, now, [])
  }

  /** `{ ...task, ...updatedTask }`: the form's fields overwrite the task's,
      and the task keeps its id, status, assignee, date added and history;
      a whole task object overwrites every field. */
  function ApplyEdit(t: Task, e: TaskEdit): (r: Task)
    ensures e.FormEdit? ==>
      r.id == t.id && r.status == t.status && r.assignedTo == t.assignedTo &&
      r.dateAdded == t.dateAdded && r.completionHistory == t.completionHistory &&
      r.title == e.draft.title && r.description == e.draft.description &&
      r.category == e.draft.category && r.priority == e.draft.priority &&
      r.dueDate == e.draft.dueDate && r.recurring == e.draft.recurring &&
      r.dependency == e.draft.dependency
    ensures e.WholeTask? ==> r == e.task
  {
    match e
    case FormEdit(d) =>
      t.(title := d.title, description := d.description, category := d.category,
         priority := d.priority, dueDate := d.dueDate, recurring := d.recurring,
         dependency := d.dependency)
    case WholeTask(u) => u
  }

  /** `editTask`: the tasks with the given id are edited, all others kept, in place. */
  function EditTasks(tasks: seq<Task>, taskId: int, e: TaskEdit): (r: seq<Task>)
    ensures |r| == |tasks|
    ensures forall i :: 0 <= i < |tasks| ==>
      r[i] == if tasks[i].id == taskId then ApplyEdit(tasks[i], e) else tasks[i]
  {
    MapWhere(tasks, (t: Task) => t.id == taskId, (t: Task) => ApplyEdit(t, e))
  }

  /** `deleteTask`: every task with the given id goes, the rest keep their order. */
  function WithoutTask(tasks: seq<Task>, taskId: int): (r: seq<Task>)
    ensures forall t :: t in r <==> t in tasks && t.id != taskId
    ensures Subseq(r, tasks)
    ensures (forall t :: t in tasks ==> t.id != taskId) ==> r == tasks
  {
    FilterIsSubseq(tasks, (t: Task) => t.id != taskId);
    Filter(tasks, (t: Task) => t.id != taskId)
  }

  /** `updateChildPoints`: every child with the id gets the new balance. */
  function SetPoints(children: seq<Child>, childId: int, newPoints: int): (r: seq<Child>)
    ensures |r| == |children|
    ensures forall i :: 0 <= i < |children| ==>
      r[i] == if children[i].id == childId then children[i].(points := newPoints) else children[i]
  {
    MapWhere(children, (c: Child) => c.id == childId, (c: Child) => c.(points := newPoints))
  }

  /** `children.find(c => c.id === id)`: the first child with that id. */
  function FindChild(children: seq<Child>, id: Option<int>): (r: Option<Child>)
    ensures r.Some? ==> r.value in children && Some(r.value.id) == id
    ensures r.Some? ==> exists i :: 0 <= i < |children| && children[i] == r.value &&
                                    forall j :: 0 <= j < i ==> Some(children[j].id) != id
    ensures r.None? ==> forall c :: c in children ==> Some(c.id) != id
  {
    if children == [] then None
    else if Some(children[0].id) == id then Some(children[0])
    else
      var r := FindChild(children[1..], id);
      if r.Some? then
        var i :| 0 <= i < |children[1..]| && children[1..][i] == r.value &&
                 forall j :: 0 <= j < i ==> Some(children[1..][j].id) != id;
        assert children[i + 1] == r.value;
        assert forall j :: 0 <= j < i + 1 ==> Some(children[j].id) != id by {
          forall j | 0 < j < i + 1 ensures Some(children[j].id) != id {
            assert children[j] == children[1..][j - 1];
          }
        }
        r
      else r
  }

  /** `rewards.find(r => r.id === id)`: the first reward with that id. */
  function FindReward(rewards: seq<Reward>, id: int): (r: Option<Reward>)
    ensures r.Some? ==> r.value in rewards && r.value.id == id
    ensures r.Some? ==> exists i :: 0 <= i < |rewards| && rewards[i] == r.value &&
                                    forall j :: 0 <= j < i ==> rewards[j].id != id
    ensures r.None? ==> forall w :: w in rewards ==> w.id != id
  {
    if rewards == [] then None
    else if rewards[0].id == id then Some(rewards[0])
    else
      var r := FindReward(rewards[1..], id);
      if r.Some? then
        var i :| 0 <= i < |rewards[1..]| && rewards[1..][i] == r.value &&
                 forall j :: 0 <= j < i ==> rewards[1..][j].id != id;
        assert rewards[i + 1] == r.value;
        assert forall j :: 0 <= j < i + 1 ==> rewards[j].id != id by {
          forall j | 0 < j < i + 1 ensures rewards[j].id != id {
            assert rewards[j] == rewards[1..][j - 1];
          }
        }
        r
      else r
  }

  /** The child credited by `updateTaskStatus(taskId, 'completed')`. The map
      callback calls `updateChildPoints` once per matching task whose assignee
      exists, each time from the same `children` snapshot, so the last such
      call decides: the credited child is the assignee of the last matching
      task that has one. */
  function CreditedChild(tasks: seq<Task>, children: seq<Child>, taskId: int): (r: Option<Child>)
    ensures r.Some? ==> r.value in children
    ensures r.None? <==> forall t :: t in tasks && t.id == taskId ==> FindChild(children, t.assignedTo).None?
  {
    if tasks == [] then None
    else
      var last := tasks[|tasks| - 1];
      var init := tasks[..|tasks| - 1];
      assert tasks == init + [last];
      if last.id == taskId && FindChild(children, last.assignedTo).Some? then
        FindChild(children, last.assignedTo)
      else
        CreditedChild(init, children, taskId)
  }

  /** `updateTaskStatus` on the tasks: the matching tasks take the new status,
      and a move to 'completed' stamps one more completion date. */
  function StatusUpdated(tasks: seq<Task>, taskId: int, newStatus: Status, now: int): (r: seq<Task>)
    ensures |r| == |tasks|
    ensures forall i :: 0 <= i < |tasks| && tasks[i].id != taskId ==> r[i] == tasks[i]
    ensures forall i :: 0 <= i < |tasks| && tasks[i].id == taskId ==>
      r[i].status == newStatus &&
      r[i].completionHistory == (if newStatus == Completed then tasks[i].completionHistory + [now]
                                 else tasks[i].completionHistory) &&
      r[i] == tasks[i].(status := r[i].status, completionHistory := r[i].completionHistory)
  {
    MapWhere(tasks, (t: Task) => t.id == taskId,
      (t: Task) => t.(status := newStatus,
                      completionHistory := if newStatus == Completed then t.completionHistory + [now]
                                           else t.completionHistory))
  }

  /** `updateTaskStatus` on the children: 10 points for the credited child on
      completion, computed from the credited child's balance as `children` held it. */
  function ChildrenAfterStatusUpdate(tasks: seq<Task>, children: seq<Child>, taskId: int,
                                     newStatus: Status): (r: seq<Child>)
    ensures |r| == |children|
    ensures newStatus != Completed || CreditedChild(tasks, children, taskId).None? ==> r == children
    ensures newStatus == Completed && CreditedChild(tasks, children, taskId).Some? ==>
      var c := CreditedChild(tasks, children, taskId).value;
      forall i :: 0 <= i < |children| ==>
        r[i] == if children[i].id == c.id then children[i].(points := c.points + 10) else children[i]
  {
    if newStatus != Completed then children
    else match CreditedChild(tasks, children, taskId)
      case None => children
      case Some(c) => SetPoints(children, c.id, c.points + 10)
  }

  predicate UniqueChildIds(children: seq<Child>)
  {
    forall i, j :: 0 <= i < j < |children| ==> children[i].id != children[j].id
  }

  predicate UniqueTaskIds(tasks: seq<Task>)
  {
    forall i, j :: 0 <= i < j < |tasks| ==> tasks[i].id != tasks[j].id
  }

  /** Completing a task credits its assignee exactly 10 points and leaves every
      other child alone (ids being unique, as `Date.now()` makes them). */
  lemma CompletionCreditsTen(tasks: seq<Task>, children: seq<Child>, k: nat, c: Child)
    requires UniqueTaskIds(tasks) && UniqueChildIds(children)
    requires k < |tasks| && FindChild(children, tasks[k].assignedTo) == Some(c)
    ensures var after := ChildrenAfterStatusUpdate(tasks, children, tasks[k].id, Completed);
      |after| == |children| &&
      forall i :: 0 <= i < |children| ==>
        after[i] == if children[i].id == c.id then c.(points := c.points + 10) else children[i]
  {
    CreditedIsAssignee(tasks, children, k);
    forall i | 0 <= i < |children| && children[i].id == c.id ensures children[i] == c {
      var j :| 0 <= j < |children| && children[j] == c;
      assert i == j;
    }
  }

  lemma {:induction false} CreditedIsAssignee(tasks: seq<Task>, children: seq<Child>, k: nat)
    requires UniqueTaskIds(tasks)
    requires k < |tasks| && FindChild(children, tasks[k].assignedTo).Some?
    ensures CreditedChild(tasks, children, tasks[k].id) == FindChild(children, tasks[k].assignedTo)
  {
    var last := tasks[|tasks| - 1];
    var init := tasks[..|tasks| - 1];
    if k < |tasks| - 1 {
      assert last.id != tasks[k].id;
      assert init[k] == tasks[k];
      CreditedIsAssignee(init, children, k);
    }
  }

  /** `claimReward`: deducts the reward's points from the child when both exist
      and the child can afford it; otherwise nothing changes. */
  function Claimed(children: seq<Child>, rewards: seq<Reward>, childId: int, rewardId: int): (r: seq<Child>)
    ensures |r| == |children|
    ensures (FindChild(children, Some(childId)).None? || FindReward(rewards, rewardId).None? ||
             FindChild(children, Some(childId)).value.points < FindReward(rewards, rewardId).value.points)
            ==> r == children
  {
    match (FindChild(children, Some(childId)), FindReward(rewards, rewardId))
    case (Some(c), Some(w)) =>
      if c.points >= w.points then SetPoints(children, childId, c.points - w.points) else children
    case _ => children
  }

  predicate AllPointsNonNegative(children: seq<Child>)
  {
    forall c :: c in children ==> c.points >= 0
  }

  /** A claim never drives a balance below zero. */
  lemma ClaimKeepsPointsNonNegative(children: seq<Child>, rewards: seq<Reward>, childId: int, rewardId: int)
    requires AllPointsNonNegative(children)
    ensures AllPointsNonNegative(Claimed(children, rewards, childId, rewardId))
  {
    var r := Claimed(children, rewards, childId, rewardId);
    forall x | x in r ensures x.points >= 0 {
      var i :| 0 <= i < |r| && r[i] == x;
      assert children[i] in children;
    }
  }

  /** A successful claim lowers the claiming child's balance by exactly the reward's points. */
  lemma ClaimDeductsCost(children: seq<Child>, rewards: seq<Reward>, i: nat, w: Reward)
    requires UniqueChildIds(children) && i < |children|
    requires FindReward(rewards, w.id) == Some(w) && children[i].points >= w.points
    ensures Claimed(children, rewards, children[i].id, w.id)[i].points == children[i].points - w.points
  {
    var c := FindChild(children, Some(children[i].id));
    var k :| 0 <= k < |children| && children[k] == c.value;
    assert k == i;
  }

  // ---------------------------------------------------------------------
  // Recurring tasks
  // ---------------------------------------------------------------------

  /** `handleRecurringTask` adds a task only for a recurring, completed task. */
  predicate Spawns(task: Task)
  {
    task.recurring != NoRecurrence && task.status == Completed
  }

  function RecurrenceDays(r: Recurrence): nat
  {
    match r
    case NoRecurrence => 0
    case Daily => 1
    case Weekly => 7
    case Monthly => 30
  }

  /** The next occurrence: a fresh 'todo' copy due one period later. */
  function NextOccurrence(task: Task, id: int): (t: Task)
    requires task.recurring != NoRecurrence
    ensures t.status == Todo && t.completionHistory == [] && t.id == id
    ensures t.dueDate - task.dueDate in {1, 7, 30}
    ensures t.recurring == task.recurring && t.assignedTo == task.assignedTo && t.title == task.title
  {
    task.(id := id, status := Todo, dueDate := task.dueDate + RecurrenceDays(task.recurring),
          completionHistory := [])
  }

  function AfterRecurrence(tasks: seq<Task>, task: Task, id: int): (r: seq<Task>)
    ensures Spawns(task) ==> r == tasks + [NextOccurrence(task, id)]
    ensures !Spawns(task) ==> r == tasks
  {
    if Spawns(task) then tasks + [NextOccurrence(task, id)] else tasks
  }

  /** The status the toggle button asks for from a task shown in `column`. */
  function ToggleTarget(column: Status): Status
  {
    if column == Completed then Todo else Completed
  }

  /** The toggle button: `editTask(task.id, { ...task, status })` and then
      `handleRecurringTask(task)` on the task as rendered. Both write the task
      list from the same snapshot and the later write wins, so when a
      recurrence is spawned the edit is lost. */
  function Toggled(tasks: seq<Task>, task: Task, column: Status, newId: int): (r: seq<Task>)
    ensures Spawns(task) ==>
      |r| == |tasks| + 1 && r[..|tasks|] == tasks && r[|tasks|] == NextOccurrence(task, newId)
    ensures !Spawns(task) ==>
      |r| == |tasks| &&
      forall i :: 0 <= i < |tasks| ==>
        r[i] == if tasks[i].id == task.id then task.(status := ToggleTarget(column)) else tasks[i]
  {
    if Spawns(task) then AfterRecurrence(tasks, task, newId)
    else EditTasks(tasks, task.id, WholeTask(task.(status := ToggleTarget(column))))
  }

  /** As written, un-completing a recurring task leaves it completed (the edit
      is overwritten) and adds a fresh 'todo' copy instead. */
  lemma ToggleOfRecurringCompletedKeepsIt(tasks: seq<Task>, task: Task, newId: int)
    requires task in tasks && Spawns(task)
    ensures var r := Toggled(tasks, task, Completed, newId);
      task in r && task.status == Completed && r[|r| - 1].status == Todo && |r| == |tasks| + 1
  {
  }

  /** As written, completing a task from the 'todo' column never spawns its
      recurrence: the rendered task is not yet 'completed'. */
  lemma ToggleToCompletedNeverSpawns(tasks: seq<Task>, task: Task, newId: int)
    requires task.status == Todo
    ensures |Toggled(tasks, task, Todo, newId)| == |tasks|
  {
  }

  // ---------------------------------------------------------------------
  // Views
  // ---------------------------------------------------------------------

  function TasksOf(tasks: seq<Task>, childId: int): (r: seq<Task>)
    ensures forall t :: t in r <==> t in tasks && t.assignedTo == Some(childId)
    ensures |r| <= |tasks|
  {
    Filter(tasks, (t: Task) => t.assignedTo == Some(childId))
  }

  function CountCompleted(tasks: seq<Task>): (n: nat)
    ensures n <= |tasks|
    ensures n == 0 <==> forall t :: t in tasks ==> t.status != Completed
    ensures n == |tasks| <==> forall t :: t in tasks ==> t.status == Completed
  {
    CountWhere(tasks, (t: Task) => t.status == Completed)
  }

  /** `calculateProgress(childId)`. */
  function CalculateProgress(tasks: seq<Task>, childId: int): (r: real)
    ensures 0.0 <= r <= 100.0
    ensures TasksOf(tasks, childId) == [] ==> r == 0.0
    ensures TasksOf(tasks, childId) != [] ==>
      IsPercentOf(r, CountCompleted(TasksOf(tasks, childId)), |TasksOf(tasks, childId)|)
    ensures r == 0.0 <==> forall t :: t in TasksOf(tasks, childId) ==> t.status != Completed
    ensures r == 100.0 <==> TasksOf(tasks, childId) != [] &&
                            forall t :: t in TasksOf(tasks, childId) ==> t.status == Completed
  {
    var mine := TasksOf(tasks, childId);
    Progress(CountCompleted(mine), |mine|)
  }

  /** The three filters of `filteredAndSortedTasks()`: the selected child's
      tasks, then the category filter, then the priority filter (`None` is 'all'). */
  function SelectedTasks(tasks: seq<Task>, selected: Option<int>, categoryFilter: Option<Category>,
                         priorityFilter: Option<Priority>): (r: seq<Task>)
    ensures forall t :: t in r <==>
      t in tasks && t.assignedTo == selected &&
      (categoryFilter.Some? ==> t.category == categoryFilter.value) &&
      (priorityFilter.Some? ==> t.priority == priorityFilter.value)
  {
    var mine := Filter(tasks, (t: Task) => t.assignedTo == selected);
    var byCategory := if categoryFilter.Some? then Filter(mine, (t: Task) => t.category == categoryFilter.value) else mine;
    if priorityFilter.Some? then Filter(byCategory, (t: Task) => t.priority == priorityFilter.value) else byCategory
  }

  /** `filteredAndSortedTasks()`: the filtered tasks, newest first or earliest due first. */
  function FilteredAndSortedTasks(tasks: seq<Task>, selected: Option<int>, categoryFilter: Option<Category>,
                                  priorityFilter: Option<Priority>, sortBy: SortKey): (r: seq<Task>)
    ensures multiset(r) == multiset(SelectedTasks(tasks, selected, categoryFilter, priorityFilter))
    ensures sortBy == ByDateAdded ==> forall i, j :: 0 <= i < j < |r| ==> r[i].dateAdded >= r[j].dateAdded
    ensures sortBy == ByDueDate ==> forall i, j :: 0 <= i < j < |r| ==> r[i].dueDate <= r[j].dueDate
  {
    var selectedTasks := SelectedTasks(tasks, selected, categoryFilter, priorityFilter);
    if sortBy == ByDateAdded then SortByKey(selectedTasks, (t: Task) => -t.dateAdded)
    else SortByKey(selectedTasks, (t: Task) => t.dueDate)
  }

  /** The board lists exactly the tasks that pass the filters. */
  lemma ShownTasksPassFilters(tasks: seq<Task>, selected: Option<int>, categoryFilter: Option<Category>,
                              priorityFilter: Option<Priority>, sortBy: SortKey, t: Task)
    ensures t in FilteredAndSortedTasks(tasks, selected, categoryFilter, priorityFilter, sortBy) <==>
      t in tasks && t.assignedTo == selected &&
      (categoryFilter.Some? ==> t.category == categoryFilter.value) &&
      (priorityFilter.Some? ==> t.priority == priorityFilter.value)
  {
    var r := FilteredAndSortedTasks(tasks, selected, categoryFilter, priorityFilter, sortBy);
    var selectedTasks := SelectedTasks(tasks, selected, categoryFilter, priorityFilter);
    assert t in r <==> t in multiset(r);
    assert t in selectedTasks <==> t in multiset(selectedTasks);
  }

  function CategoryCountOf(tasks: seq<Task>, c: Category): nat
  {
    CountWhere(tasks, (t: Task) => t.category == c)
  }

  /** `getTaskDistributionData(childId)`: one bar per category, in table order. */
  function TaskDistribution(tasks: seq<Task>, childId: int): (r: seq<CategoryCount>)
    ensures |r| == |Categories|
    ensures forall i :: 0 <= i < |r| ==> r[i].category == Categories[i]
    ensures forall i :: 0 <= i < |r| ==> r[i].value == CategoryCountOf(TasksOf(tasks, childId), Categories[i])
    ensures r[0].value + r[1].value + r[2].value + r[3].value + r[4].value == |TasksOf(tasks, childId)|
  {
    var mine := TasksOf(tasks, childId);
    CategoriesPartition(mine);
    seq(|Categories|, i requires 0 <= i < |Categories| => CategoryCount(Categories[i], CategoryCountOf(mine, Categories[i])))
  }

  /** Every task has exactly one of the five categories, so the bars add up to the task count. */
  lemma {:induction false} CategoriesPartition(tasks: seq<Task>)
    ensures CategoryCountOf(tasks, Homework) + CategoryCountOf(tasks, Chores) + CategoryCountOf(tasks, Exercise)
            + CategoryCountOf(tasks, Reading) + CategoryCountOf(tasks, Other) == |tasks|
  {
    if tasks != [] {
      CategoriesPartition(tasks[1..]);
    }
  }

  function StatusCountOf(tasks: seq<Task>, s: Status): nat
  {
    CountWhere(tasks, (t: Task) => t.status == s)
  }

  /** `getTaskCompletionData(childId)`: completed, in progress and to do. */
  function TaskCompletion(tasks: seq<Task>, childId: int): (r: StatusCounts)
    ensures r.completed == StatusCountOf(TasksOf(tasks, childId), Completed)
    ensures r.inProgress == StatusCountOf(TasksOf(tasks, childId), InProgress)
    ensures r.todo == StatusCountOf(TasksOf(tasks, childId), Todo)
    ensures r.completed + r.inProgress + r.todo == |TasksOf(tasks, childId)|
  {
    var mine := TasksOf(tasks, childId);
    StatusesPartition(mine);
    StatusCounts(StatusCountOf(mine, Completed), StatusCountOf(mine, InProgress), StatusCountOf(mine, Todo))
  }

  /** Every task is in exactly one of the three columns. */
  lemma {:induction false} StatusesPartition(tasks: seq<Task>)
    ensures StatusCountOf(tasks, Completed) + StatusCountOf(tasks, InProgress) + StatusCountOf(tasks, Todo) == |tasks|
  {
    if tasks != [] {
      StatusesPartition(tasks[1..]);
    }
  }

  /** `childTasks.filter(task => task.category === category)`. */
  function TasksIn(tasks: seq<Task>, c: Category): (r: seq<Task>)
    ensures forall t :: t in r <==> t in tasks && t.category == c
    ensures Subseq(r, tasks)
    ensures |r| == CategoryCountOf(tasks, c)
  {
    FilterIsSubseq(tasks, (t: Task) => t.category == c);
    CountIsFilterLength(tasks, (t: Task) => t.category == c);
    Filter(tasks, (t: Task) => t.category == c)
  }

  /** `getCompletionRateByCategoryData(childId)`: per category, in table order,
      the rounded share of that category's tasks that are completed. */
  function CompletionRateByCategory(tasks: seq<Task>, childId: int): (r: seq<CategoryRate>)
    ensures |r| == |Categories|
    ensures forall i :: 0 <= i < |r| ==>
      r[i].category == Categories[i] &&
      r[i].completionRate == RoundedPercent(CountCompleted(TasksIn(TasksOf(tasks, childId), Categories[i])),
                                            CategoryCountOf(TasksOf(tasks, childId), Categories[i]))
    ensures forall i :: 0 <= i < |r| ==> 0 <= r[i].completionRate <= 100
    ensures forall i :: 0 <= i < |r| && CategoryCountOf(TasksOf(tasks, childId), Categories[i]) == 0 ==>
      r[i].completionRate == 0
  {
    var mine := TasksOf(tasks, childId);
    seq(|Categories|, i requires 0 <= i < |Categories| =>
      var inCategory := TasksIn(mine, Categories[i]);
      CategoryRate(Categories[i], RoundedPercent(CountCompleted(inCategory), |inCategory|)))
  }

  /** `childTasks.flatMap(task => task.completionHistory)`. */
  function CompletionDates(tasks: seq<Task>): (r: seq<int>)
    ensures forall d :: d in r <==> exists t :: t in tasks && d in t.completionHistory
  {
    if tasks == [] then []
    else tasks[0].completionHistory + CompletionDates(tasks[1..])
  }

  /** `getTasksCompletedOverTimeData(childId)`: the completion dates in
      ascending order, each paired with the running count 1, 2, ..., n. */
  method TasksCompletedOverTime(tasks: seq<Task>, childId: int) returns (points: seq<CompletionPoint>)
    ensures |points| == |CompletionDates(TasksOf(tasks, childId))|
    ensures forall i :: 0 <= i < |points| ==> points[i].count == i + 1
    ensures forall i, j :: 0 <= i < j < |points| ==> points[i].date <= points[j].date
    ensures multiset(seq(|points|, i requires 0 <= i < |points| => points[i].date))
            == multiset(CompletionDates(TasksOf(tasks, childId)))
  {
    var dates := CompletionDates(TasksOf(tasks, childId));
    var sorted := SortByKey(dates, (d: int) => d);
    var cumulativeCount := 0;
    points := [];
    while cumulativeCount < |sorted|
      invariant 0 <= cumulativeCount <= |sorted|
      invariant |points| == cumulativeCount
      invariant forall i :: 0 <= i < cumulativeCount ==> points[i] == CompletionPoint(sorted[i], i + 1)
    {
      points := points + [CompletionPoint(sorted[cumulativeCount], cumulativeCount + 1)];
      cumulativeCount := cumulativeCount + 1;
    }
    assert seq(|points|, i requires 0 <= i < |points| => points[i].date) == sorted;
  }

  // ---------------------------------------------------------------------
  // The page state
  // ---------------------------------------------------------------------

  class Board {
    var children: seq<Child>
    var tasks: seq<Task>
    var rewards: seq<Reward>
    var comments: map<int, seq<Comment>>
    var selectedChild: Option<int>

    constructor ()
      ensures children == [] && tasks == [] && rewards == [] && comments == map[] && selectedChild == None
    {
      children, tasks, rewards, comments, selectedChild := [], [], [], map[], None;
    }

    /** `addChild`: a new child with no points at the end of the list. */
    method AddChild(id: int, name: string, age: int)
      modifies this
      ensures children == old(children) + [Child(id, name, age, 0)]
      ensures tasks == old(tasks) && rewards == old(rewards) && comments == old(comments)
      ensures selectedChild == old(selectedChild)
    {
      children := children + [Child(id, name, age, 0)];
    }

    /** `addTask`: one 'todo' task for the selected child, appended. */
    method AddTask(draft: TaskDraft, id: int, now: int)
      modifies this
      ensures tasks == old(tasks) + [NewTask(draft, id, old(selectedChild), now)]
      ensures tasks[|tasks| - 1].status == Todo && tasks[|tasks| - 1].completionHistory == []
      ensures tasks[|tasks| - 1].assignedTo == selectedChild
      ensures children == old(children) && rewards == old(rewards) && comments == old(comments)
      ensures selectedChild == old(selectedChild)
    {
      tasks := tasks + [NewTask(draft, id, selectedChild, now)];
    }

    method EditTask(taskId: int, e: TaskEdit)
      modifies this
      ensures tasks == EditTasks(old(tasks), taskId, e)
      ensures children == old(children) && rewards == old(rewards) && comments == old(comments)
      ensures selectedChild == old(selectedChild)
    {
      tasks := EditTasks(tasks, taskId, e);
    }

    method DeleteTask(taskId: int)
      modifies this
      ensures tasks == WithoutTask(old(tasks), taskId)
      ensures children == old(children) && rewards == old(rewards) && comments == old(comments)
      ensures selectedChild == old(selectedChild)
    {
      tasks := WithoutTask(tasks, taskId);
    }

    method UpdateChildPoints(childId: int, newPoints: int)
      modifies this
      ensures children == SetPoints(old(children), childId, newPoints)
      ensures tasks == old(tasks) && rewards == old(rewards) && comments == old(comments)
      ensures selectedChild == old(selectedChild)
    {
      children := SetPoints(children, childId, newPoints);
    }

    /** `updateTaskStatus`: the matching tasks move to the new status; a move
        to 'completed' also records the date and credits the assignee 10 points. */
    method UpdateTaskStatus(taskId: int, newStatus: Status, now: int)
      modifies this
      ensures tasks == StatusUpdated(old(tasks), taskId, newStatus, now)
      ensures children == ChildrenAfterStatusUpdate(old(tasks), old(children), taskId, newStatus)
      ensures rewards == old(rewards) && comments == old(comments) && selectedChild == old(selectedChild)
    {
      children := ChildrenAfterStatusUpdate(tasks, children, taskId, newStatus);
      tasks := StatusUpdated(tasks, taskId, newStatus, now);
    }

    /** `addComment`: the comment goes at the end of that task's thread. */
    method AddComment(taskId: int, text: string, now: int)
      modifies this
      ensures taskId in comments
      ensures comments[taskId] == (if taskId in old(comments) then old(comments)[taskId] else []) + [Comment(text, now)]
      ensures forall k :: k != taskId ==> (k in comments <==> k in old(comments))
      ensures forall k :: k != taskId && k in comments ==> comments[k] == old(comments)[k]
      ensures children == old(children) && tasks == old(tasks) && rewards == old(rewards)
      ensures selectedChild == old(selectedChild)
    {
      var thread := if taskId in comments then comments[taskId] else [];
      comments := comments[taskId := thread + [Comment(text, now)]];
    }

    method AddReward(id: int, name: string, points: int)
      modifies this
      ensures rewards == old(rewards) + [Reward(id, name, points)]
      ensures children == old(children) && tasks == old(tasks) && comments == old(comments)
      ensures selectedChild == old(selectedChild)
    {
      rewards := rewards + [Reward(id, name, points)];
    }

    /** `claimReward`: guarded by `child.points >= reward.points`. */
    method ClaimReward(childId: int, rewardId: int)
      modifies this
      ensures children == Claimed(old(children), old(rewards), childId, rewardId)
      ensures AllPointsNonNegative(old(children)) ==> AllPointsNonNegative(children)
      ensures tasks == old(tasks) && rewards == old(rewards) && comments == old(comments)
      ensures selectedChild == old(selectedChild)
    {
      if AllPointsNonNegative(children) {
        ClaimKeepsPointsNonNegative(children, rewards, childId, rewardId);
      }
      children := Claimed(children, rewards, childId, rewardId);
    }

    /** `onDragEnd`: a drop onto another column is a status update. */
    method OnDragEnd(result: DragResult, now: int)
      modifies this
      ensures (result.destination.None? || result.destination.value == result.source) ==>
        tasks == old(tasks) && children == old(children)
      ensures result.destination.Some? && result.destination.value != result.source ==>
        tasks == StatusUpdated(old(tasks), result.draggableId, result.destination.value, now) &&
        children == ChildrenAfterStatusUpdate(old(tasks), old(children), result.draggableId, result.destination.value)
      ensures rewards == old(rewards) && comments == old(comments) && selectedChild == old(selectedChild)
    {
      if result.destination.Some? && result.source != result.destination.value {
        UpdateTaskStatus(result.draggableId, result.destination.value, now);
      }
    }

    method HandleRecurringTask(task: Task, newId: int)
      modifies this
      ensures tasks == AfterRecurrence(old(tasks), task, newId)
      ensures children == old(children) && rewards == old(rewards) && comments == old(comments)
      ensures selectedChild == old(selectedChild)
    {
      tasks := AfterRecurrence(tasks, task, newId);
    }

    /** The toggle button of a card rendered in `column`: no points are credited. */
    method ToggleTask(task: Task, column: Status, newId: int)
      modifies this
      ensures tasks == Toggled(old(tasks), task, column, newId)
      ensures children == old(children) && rewards == old(rewards) && comments == old(comments)
      ensures selectedChild == old(selectedChild)
    {
      tasks := Toggled(tasks, task, column, newId);
    }
  }
}
