# Family organiser: page state and its updates

This project models the in-memory bookkeeping of a family-organiser web
client. The client is a set of pages, and each page keeps collections of
tasks, rewards, events, meals or users, updates them after the server
answers, and derives views from them. Modelled pages:

- **Local task board** (`childtask`). Children, tasks, rewards and
  comments live only in the page:
  - adding, editing and deleting tasks;
  - status changes that credit the assignee 10 points;
  - reward claims guarded by the child's balance;
  - recurring tasks;
  - the progress, distribution, completion, over-time and per-category views.
- **Kanban board** (`taskmanager`). Three columns ('to-do', 'in-progress',
  'done'):
  - filled by grouping the fetched list;
  - rearranged by drag and drop with `splice`;
  - cleared of a task or of the whole 'done' column;
  - shown through a priority filter and a progress bar.
- **Child details backed by the server** (`child-details/child-data` and
  `child-details/child-tasks`). The selected child's tasks and rewards:
  - completing a task marks it done and credits 10 points to the first
    reward, or creates a cumulative reward;
  - reward editing, redemption and the progress bar.
- **Family dashboard** (`child-task`). A map from each child's id to their
  daily tasks, with completion counts and tab filters.
- **Calendar** (`calender`). Events added and deleted through the server,
  coloured by category and listed per day. The page also defines an update
  handler that nothing calls.
- **Meal planner** (`meal-planner`). A date-keyed map of meal slots, a
  recipe list, and the recipe search with its allergen filter.
- **Admin user table** (`admin/dash-baord`). The user list and its search
  and plan filter.

Each page is a class whose fields are the page's state. Each handler is a
method that states the new state as a function of the old one. Server
answers are method parameters: `ok` when the request succeeded, `Option`
of the returned record, or `None` when a request threw. The pure list
operations live in `Common`:

- `Filter`, order-preserving like `Array.prototype.filter`;
- `MapWhere`, for `map` with a conditional replacement;
- `RemoveAt`/`InsertAt`, for `splice`;
- a stable `SortByKey`;
- `Progress` and `RoundedPercent`;
- a case-insensitive substring test.

The properties proved cover, among others:

- order preservation (every filter result is a subsequence of its input);
- "only this record changes" for replace-by-id;
- bounds on every progress value;
- a card count that every drag keeps;
- claims that never make a balance negative;
- category and status counts that add up to the task count;
- several quirks of the code, stated as lemmas.

## Model

| member | source | states |
|---|---|---|
| Common.Filter | src/app/childtask/page.jsx:281-287 | `filter` keeps exactly the elements that satisfy the predicate, never lengthens the list, and is the identity when every element passes |
| Common.FilterIsSubseq | src/app/childtask/page.jsx:216 | a filter result is an order-preserving subsequence of its input |
| Common.SubseqLength | src/app/childtask/page.jsx:216 | an order-preserving subsequence is never longer than its source |
| Common.FilterAppend | src/app/calender/page.jsx:198-200 | filtering a concatenation is the concatenation of the filtered parts (used to show an appended record lands at the end of every filtered view) |
| Common.CountWhere | src/app/childtask/page.jsx:276 | `filter(p).length` is at most the list length, 0 iff no element passes, and the full length iff every element passes |
| Common.CountIsFilterLength | src/app/childtask/page.jsx:337-338 | the count equals the length of the filtered list |
| Common.MapWhere | src/app/childtask/page.jsx:208 | `map(x => p(x) ? f(x) : x)` keeps the length, replaces exactly the elements satisfying `p` and leaves the others in place |
| Common.RemoveAt | src/app/taskmanager/page.jsx:221 | `splice(i, 1)` removes the element at `i` and shifts the later ones down by one |
| Common.InsertAt | src/app/taskmanager/page.jsx:224 | `splice(i, 0, x)` puts `x` at `i`, or at the end when `i` is past it, and shifts the later elements up by one |
| Common.RemoveInsertRoundTrip | src/app/taskmanager/page.jsx:221-224 | taking an element out and splicing it back at the same index restores the list |
| Common.InsertByKey | src/app/childtask/page.jsx:288-294 | insertion into a list adds exactly one element (multiset) |
| Common.InsertKeepsSorted | src/app/childtask/page.jsx:288-294 | inserting into a key-sorted list keeps it sorted |
| Common.SortByKey | src/app/childtask/page.jsx:288-294 | the sort with a numeric comparator returns a permutation (same multiset) of its input in ascending key order |
| Common.InsertByKeyStable | src/app/childtask/page.jsx:288-294 | an inserted element goes in front of every element with its own key, and the elements of any other key keep their order |
| Common.SortByKeyStable | src/app/childtask/page.jsx:288-294 | the sort is stable: for every key, the elements with that key come out in their input order |
| Common.Progress | src/app/childtask/page.jsx:274-278 | `total === 0 ? 0 : done/total*100`: with tasks the value times the total is 100 times the done count, it lies in [0, 100], is 0 iff nothing is done and 100 iff everything is done |
| Common.RatioBounds | src/app/childtask/page.jsx:277 | the ratio done/total lies in [0, 1], and is 1 iff all are done and 0 iff none is |
| Common.RoundedPercent | src/app/childtask/page.jsx:340-343 | `Math.round(done/total*100)` (0 with no tasks) is the integer within one half of the exact percentage, lies in [0, 100], and is 0 and 100 at the ends (the exact fraction is rounded, not the double the page computes) |
| Common.RoundingBounds | src/app/childtask/page.jsx:343 | the rounded quotient brackets 200·done between (2q−1)·total and (2q+1)·total and lies in [0, 100] |
| Common.QuotientUnique | src/app/childtask/page.jsx:343 | only one integer multiple brackets a dividend, so the rounded percentage is determined by those bounds |
| Common.EmptyTermMatches | src/app/admin/dash-baord/page.jsx:182-185 | the empty search term occurs in every string |
| LocalTaskBoard.NewTask | src/app/childtask/page.jsx:181-190 | a new task has status 'todo', the selected child as assignee, an empty completion history and the form's title and due date |
| LocalTaskBoard.ApplyEdit | src/app/childtask/page.jsx:208 | the edit form's fields overwrite the task's while its id, status, assignee, date added and history are kept; a whole task object replaces the task |
| LocalTaskBoard.EditTasks | src/app/childtask/page.jsx:207-208 | every task with the id is merged with the edit, all others stay at their positions |
| LocalTaskBoard.WithoutTask | src/app/childtask/page.jsx:215-216 | exactly the tasks with the id are removed, the rest keep their order, and a missing id changes nothing |
| LocalTaskBoard.SetPoints | src/app/childtask/page.jsx:270-272 | every child with the id gets the new balance, all other children are unchanged |
| LocalTaskBoard.FindChild | src/app/childtask/page.jsx:229 | `find` returns the first child of the list with that id, or none exactly when no child has it |
| LocalTaskBoard.FindReward | src/app/childtask/page.jsx:260 | `find` returns the first reward of the list with that id, or none exactly when no reward has it |
| LocalTaskBoard.CreditedChild | src/app/childtask/page.jsx:226-232 | the credited child is a child of the list, and there is none iff no task with the id has an existing assignee |
| LocalTaskBoard.StatusUpdated | src/app/childtask/page.jsx:223-237 | only the matching tasks change: they take the new status and, on 'completed', one more completion date; nothing else in them changes |
| LocalTaskBoard.ChildrenAfterStatusUpdate | src/app/childtask/page.jsx:226-233 | only a move to 'completed' with a credited child changes the children: every child with that id gets the credited child's balance plus 10, the rest are unchanged |
| LocalTaskBoard.CompletionCreditsTen | src/app/childtask/page.jsx:226-233 | with unique ids, completing a task gives its assignee exactly 10 more points and changes no other child |
| LocalTaskBoard.CreditedIsAssignee | src/app/childtask/page.jsx:226-233 | with unique task ids, the credited child is the completed task's assignee |
| LocalTaskBoard.Claimed | src/app/childtask/page.jsx:258-267 | a claim changes nothing unless the child and the reward exist and the child can afford it |
| LocalTaskBoard.ClaimKeepsPointsNonNegative | src/app/childtask/page.jsx:261-265 | a claim never makes a non-negative balance negative |
| LocalTaskBoard.ClaimDeductsCost | src/app/childtask/page.jsx:261-262 | a successful claim lowers the child's balance by exactly the reward's points |
| LocalTaskBoard.NextOccurrence | src/app/childtask/page.jsx:360-380 | the spawned task is a fresh 'todo' copy with an empty history, due 1, 7 or 30 days later, with the same recurrence, assignee and title |
| LocalTaskBoard.AfterRecurrence | src/app/childtask/page.jsx:358-383 | a task is appended only for a recurring task that is completed; otherwise the list is unchanged |
| LocalTaskBoard.Toggled | src/app/childtask/page.jsx:628-631 | when the rendered task recurs and is completed the old list is kept unchanged with the next occurrence appended, so the edit is lost; otherwise exactly the tasks with the id take the toggled status |
| LocalTaskBoard.ToggleOfRecurringCompletedKeepsIt | src/app/childtask/page.jsx:628-631 | un-completing a recurring completed task leaves it completed and appends a fresh 'todo' copy, because the later write of the same snapshot wins |
| LocalTaskBoard.ToggleToCompletedNeverSpawns | src/app/childtask/page.jsx:628-631 | completing a 'todo' task from its card never spawns its recurrence |
| LocalTaskBoard.TasksOf | src/app/childtask/page.jsx:275 | a child's tasks are exactly the tasks assigned to that child |
| LocalTaskBoard.CountCompleted | src/app/childtask/page.jsx:276 | the completed count never exceeds the number of tasks, is 0 iff no task is completed and is the full count iff every task is |
| LocalTaskBoard.CalculateProgress | src/app/childtask/page.jsx:274-278 | 0 when the child has no tasks, otherwise the child's completed count over its task count times 100; in [0, 100], 0 iff no task of the child is completed and 100 iff the child has tasks and all are completed |
| LocalTaskBoard.SelectedTasks | src/app/childtask/page.jsx:281-287 | a task is kept iff it is the selected child's and matches the category and priority filters that are not 'all' |
| LocalTaskBoard.FilteredAndSortedTasks | src/app/childtask/page.jsx:280-295 | a permutation of the selected tasks, newest `dateAdded` first or earliest `dueDate` first |
| LocalTaskBoard.ShownTasksPassFilters | src/app/childtask/page.jsx:280-295 | the sorted list shows exactly the tasks that pass the three filters |
| LocalTaskBoard.TaskDistribution | src/app/childtask/page.jsx:298-308 | one bar per category in table order, each holding the number of the child's tasks in that category, and the bars add up to the child's task count |
| LocalTaskBoard.CategoriesPartition | src/app/childtask/page.jsx:300-303 | the per-category counts add up to the number of tasks |
| LocalTaskBoard.TaskCompletion | src/app/childtask/page.jsx:310-317 | the completed, in-progress and to-do values are the numbers of the child's tasks with that status, and they add up to the child's task count |
| LocalTaskBoard.StatusesPartition | src/app/childtask/page.jsx:312-316 | the per-status counts add up to the number of tasks |
| LocalTaskBoard.CompletionRateByCategory | src/app/childtask/page.jsx:334-345 | one rate per category in table order: the rounded percentage of that category's tasks of the child that are completed, in [0, 100], and 0 for a category without tasks |
| LocalTaskBoard.TasksIn | src/app/childtask/page.jsx:337 | a category's tasks are exactly the tasks with that category, in order, and there are as many as the category count |
| LocalTaskBoard.CompletionDates | src/app/childtask/page.jsx:321 | a date is listed iff it is in some task's completion history |
| LocalTaskBoard.TasksCompletedOverTime | src/app/childtask/page.jsx:319-331 | one point per completion date, dates in ascending order and a permutation of the child's completion dates, counts 1, 2, …, n |
| LocalTaskBoard.Board.constructor | src/app/childtask/page.jsx:130-149 | the board starts with no children, tasks, rewards or comments and no selected child |
| LocalTaskBoard.Board.AddChild | src/app/childtask/page.jsx:172-179 | the new child, with 0 points, is appended; nothing else changes |
| LocalTaskBoard.Board.AddTask | src/app/childtask/page.jsx:181-190 | exactly one 'todo' task with empty history, assigned to the selected child, is appended; earlier tasks are unchanged |
| LocalTaskBoard.Board.EditTask | src/app/childtask/page.jsx:207-208 | the tasks become `EditTasks` of the old tasks; nothing else changes |
| LocalTaskBoard.Board.DeleteTask | src/app/childtask/page.jsx:215-216 | the tasks become `WithoutTask` of the old tasks; nothing else changes |
| LocalTaskBoard.Board.UpdateChildPoints | src/app/childtask/page.jsx:270-272 | the children become `SetPoints` of the old children; nothing else changes |
| LocalTaskBoard.Board.UpdateTaskStatus | src/app/childtask/page.jsx:223-237 | tasks and children are updated from the same snapshot: new status and completion date, and 10 points for the credited child |
| LocalTaskBoard.Board.AddComment | src/app/childtask/page.jsx:240-244 | the comment is appended to that task's thread (created if missing); every other thread is unchanged |
| LocalTaskBoard.Board.AddReward | src/app/childtask/page.jsx:247-249 | the reward is appended; nothing else changes |
| LocalTaskBoard.Board.ClaimReward | src/app/childtask/page.jsx:258-267 | the children become `Claimed` of the old state, and non-negative balances stay non-negative |
| LocalTaskBoard.Board.OnDragEnd | src/app/childtask/page.jsx:347-356 | without a destination, or onto the same column, nothing changes; otherwise it is the status update to the destination column |
| LocalTaskBoard.Board.HandleRecurringTask | src/app/childtask/page.jsx:358-383 | the tasks become `AfterRecurrence` of the old tasks; nothing else changes |
| LocalTaskBoard.Board.ToggleTask | src/app/childtask/page.jsx:628-631 | the toggle writes the spawned list when the rendered task recurs and is completed, otherwise the edited list; no points are credited |
| TaskManager.ColumnOf | src/app/taskmanager/page.jsx:143-144 | only 'to-do', 'in-progress' and 'done' select a column, and the column's name is the status |
| TaskManager.ColumnNameRoundTrip | src/app/taskmanager/page.jsx:143-144 | each column's name selects that column |
| TaskManager.Grouped | src/app/taskmanager/page.jsx:143-149 | grouping places every fetched task in some column: the columns hold as many cards as the list has tasks |
| TaskManager.GroupedPartitions | src/app/taskmanager/page.jsx:143-149 | grouping succeeds iff every status names a column, and then each column holds exactly that status's tasks in fetch order |
| TaskManager.GroupedStep | src/app/taskmanager/page.jsx:144-148 | one push appends the task's card to its column, or fails on an unknown status |
| TaskManager.GroupedFailureExtends | src/app/taskmanager/page.jsx:144 | once a push throws, the whole grouping fails |
| TaskManager.Moved | src/app/taskmanager/page.jsx:219-230 | a move succeeds iff the source index holds a card; then, between two columns, the source column is the `splice(source.index, 1)` of the old one and the destination the `splice(destination.index, 0, card)` of the old one, within one column the second splice applies to the first's result, the card takes the destination's status, and the third column is untouched |
| TaskManager.MoveKeepsCards | src/app/taskmanager/page.jsx:219-230 | a move keeps the card count, puts the re-statused card at the destination index (clamped to the end) and leaves the third column untouched |
| TaskManager.DropInPlaceKeepsOrder | src/app/taskmanager/page.jsx:221-224 | dropping a card where it was only records its column on it |
| TaskManager.FilteredTasks | src/app/taskmanager/page.jsx:254-257 | 'all' shows the column unchanged; any other filter shows exactly the cards of that priority, in order |
| TaskManager.FilteredDragMovesHiddenCard | src/app/taskmanager/page.jsx:221 | with a priority filter on, dragging the only shown card moves the hidden card at the same index of the whole column instead |
| TaskManager.WithoutCard | src/app/taskmanager/page.jsx:203 | one column loses exactly the cards with the id, the rest keep their order |
| TaskManager.CalculateProgress | src/app/taskmanager/page.jsx:248-252 | with cards, the number of 'done' cards over all cards times 100; in [0, 100], 0 iff 'done' is empty and 100 iff only 'done' holds cards |
| TaskManager.Kanban.constructor | src/app/taskmanager/page.jsx:35 | the board starts with three empty columns and the 'all' filter |
| TaskManager.Kanban.FetchTasks | src/app/taskmanager/page.jsx:137-153 | the board becomes the grouped list when every status is known; otherwise it is unchanged |
| TaskManager.Kanban.AddTask | src/app/taskmanager/page.jsx:159-179 | unless the request throws, the saved card is appended to 'to-do' only |
| TaskManager.Kanban.DeleteAllDoneTasks | src/app/taskmanager/page.jsx:180-192 | unless the request throws, 'done' is emptied, the other columns are untouched and progress drops to 0 |
| TaskManager.Kanban.DeleteTask | src/app/taskmanager/page.jsx:194-212 | unless the request throws, every column loses exactly the cards with the id |
| TaskManager.Kanban.OnDragEnd | src/app/taskmanager/page.jsx:214-230 | nothing changes without a destination; otherwise the columns are the splices of `Moved`, and the card count is kept |
| TaskManager.Kanban.SetFilter | src/app/taskmanager/page.jsx:281 | choosing a priority sets the filter and leaves the columns unchanged |
| ChildDetails.MarkDone | src/app/child-details/child-data/page.jsx:374-378 | only the tasks with the id become "done", all others are unchanged |
| ChildDetails.WithoutTask | src/app/child-details/child-data/page.jsx:483 | exactly the tasks with the id are removed, the rest keep their order |
| ChildDetails.WithoutDone | src/app/child-details/child-data/page.jsx:506-508 | exactly the tasks that are not "done" are kept, in order |
| ChildDetails.CountDone | src/app/child-details/child-data/page.jsx:586-588 | the done count is at most the task count, and 0 iff no task is done |
| ChildDetails.TaskProgress | src/app/child-details/child-data/page.jsx:584-590 | with tasks, the done count over the task count times 100; in [0, 100], 0 with no tasks or none done, and 100 iff all tasks are done |
| ChildDetails.ClearingCompletedResetsProgress | src/app/child-details/child-data/page.jsx:506-508 | after clearing the completed tasks the progress is 0 |
| ChildDetails.MarkDoneRaisesCount | src/app/child-details/child-data/page.jsx:374-378 | completing never lowers the done count, and completing a task that was not done raises it |
| ChildDetails.CountDoneFirst | src/app/child-details/child-data/page.jsx:586-588 | the done count splits into the first task and the rest |
| ChildDetails.CumulativeReward | src/app/child-details/child-data/page.jsx:384-389 | the cumulative reward has the given points, belongs to the selected child and has no id |
| ChildDetails.IncrementFirst | src/app/child-details/child-data/page.jsx:392-395 | the first reward gains the points and the tail is unchanged |
| ChildDetails.IncrementFirstAddsPoints | src/app/child-details/child-data/page.jsx:392-395 | incrementing the first reward raises the rewards' total by exactly that many points |
| ChildData.ChildIds | src/app/child-details/child-data/page.jsx:309 | the ids are every child's `_id`, in order |
| ChildData.AddTaskRequest | src/app/child-details/child-data/page.jsx:293-311 | no request iff the task is not for all children and no child is chosen; otherwise the payload targets every child's id or exactly the chosen one |
| ChildData.PayloadTargetsKnownChildren | src/app/child-details/child-data/page.jsx:308-310 | every id in a payload is a listed child's or the chosen child's |
| ChildData.RewardsAfterCompletion | src/app/child-details/child-data/page.jsx:381-398 | no rewards become one cumulative reward of 10 points; otherwise the first reward gains 10 and the rest are unchanged |
| ChildData.CompletionAddsTenPoints | src/app/child-details/child-data/page.jsx:381-398 | every completion adds exactly 10 to the rewards' total |
| ChildData.UpdateRewardFollowUp | src/app/child-details/child-data/page.jsx:420-446 | the follow-up posts a new 10-point reward iff the rewards it sees are empty; otherwise it reaches the undefined `rewardUpdate` |
| ChildData.PointsAfterRedeem | src/app/child-details/child-data/page.jsx:540-544 | only a predefined redemption the server accepted lowers the balance, by the charged points |
| ChildData.RedeemEnabled | src/app/child-details/child-data/page.jsx:906-907 | the redeem button is enabled iff the balance covers the reward's cost |
| ChildData.EnabledRedeemKeepsBalance | src/app/child-details/child-data/page.jsx:906-907 | a redemption through an enabled button, charged its shown cost, keeps a non-negative balance non-negative |
| ChildData.ChildDataPage.constructor | src/app/child-details/child-data/page.jsx:78-107 | the page starts with no children, tasks or rewards, 0 points and no selected child |
| ChildData.ChildDataPage.CompleteTask | src/app/child-details/child-data/page.jsx:357-418 | on success the task is marked done, the rewards are updated and the follow-up is reported; on failure nothing changes |
| ChildData.ChildDataPage.DeleteTask | src/app/child-details/child-data/page.jsx:470-491 | on success exactly the tasks with the id are removed |
| ChildData.ChildDataPage.DeleteAllCompletedTasks | src/app/child-details/child-data/page.jsx:493-516 | on success exactly the non-"done" tasks remain and progress is 0 |
| ChildData.ChildDataPage.RedeemReward | src/app/child-details/child-data/page.jsx:518-554 | the balance becomes `PointsAfterRedeem` of the old balance; nothing else changes |
| ChildData.ChildDataPage.AddCustomReward | src/app/child-details/child-data/page.jsx:556-582 | on success the server's reward is appended |
| ChildTasks.SetRewardPoints | src/app/child-details/child-tasks/page.jsx:234-240 | every reward with the id gets the new points, the others are unchanged |
| ChildTasks.RewardsAfterCompletion | src/app/child-details/child-tasks/page.jsx:161-248 | with an empty fetched list the created reward becomes the whole list; otherwise the fetched first reward's points plus 10 go onto the rewards with its id; a failed step changes nothing |
| ChildTasks.CompletionMatchesIncrement | src/app/child-details/child-tasks/page.jsx:218-240 | when the shown rewards are the fetched ones and ids are unique, a completion adds 10 to the first reward only |
| ChildTasks.CompletionUsesFetchedBalance | src/app/child-details/child-tasks/page.jsx:193-221 | the new balance is the server's points plus 10: 30 shown and 50 on the server give 60 |
| ChildTasks.RewardsAfterUpdate | src/app/child-details/child-tasks/page.jsx:285-328 | no rewards become the created reward; otherwise a successful update adds the points to the first reward and keeps the tail |
| ChildTasks.RewardsAfterEdit | src/app/child-details/child-tasks/page.jsx:330-351 | a successful edit merges the form into the first reward only; an empty list (which throws) or a failure changes nothing |
| ChildTasks.EditIdempotent | src/app/child-details/child-tasks/page.jsx:341-344 | editing twice with the same form is editing once |
| ChildTasks.ChildTasksPage.constructor | src/app/child-details/child-tasks/page.jsx:44-46 | the page starts with no tasks or rewards and no selected child |
| ChildTasks.ChildTasksPage.AddTask | src/app/child-details/child-tasks/page.jsx:134-157 | on success the server's task is appended |
| ChildTasks.ChildTasksPage.CompleteTask | src/app/child-details/child-tasks/page.jsx:161-248 | the task is done once its request succeeds, and the rewards become `RewardsAfterCompletion` of the answers |
| ChildTasks.ChildTasksPage.UpdateReward | src/app/child-details/child-tasks/page.jsx:285-328 | the rewards become `RewardsAfterUpdate`, and a successful increment raises the total by exactly the points added (the page never calls this handler: its "update reward" button submits the edit form) |
| ChildTasks.ChildTasksPage.EditReward | src/app/child-details/child-tasks/page.jsx:330-351 | the rewards become `RewardsAfterEdit` of the old rewards |
| ChildTasks.ChildTasksPage.DeleteTask | src/app/child-details/child-tasks/page.jsx:251-266 | on success exactly the tasks with the id are removed |
| ChildTasks.ChildTasksPage.DeleteAllCompletedTasks | src/app/child-details/child-tasks/page.jsx:268-283 | on success exactly the non-"done" tasks remain and progress is 0 |
| ChildTasks.ChildTasksPage.AddPredefinedReward | src/app/child-details/child-tasks/page.jsx:352-370 | on success the server's reward is appended |
| FamilyDashboard.TaskMap | src/app/child-task/page.jsx:74-77 | the map's keys are exactly the children's ids |
| FamilyDashboard.TaskMapAtIndex | src/app/child-task/page.jsx:74-77 | with distinct ids, each child's entry is the task list fetched at the child's index |
| FamilyDashboard.CompletedTasksCount | src/app/child-task/page.jsx:119 | throws iff the child has no entry in the map; otherwise the count never exceeds the child's task count, is 0 iff none is done and is the full count iff all are done |
| FamilyDashboard.FilterTasks | src/app/child-task/page.jsx:121-127 | throws iff the child has no entry in the map; otherwise 'morning', 'evening' and 'weekly' keep exactly the tasks of that period or frequency, in order, and any other tab keeps the whole list |
| FamilyDashboard.ProgressValue | src/app/child-task/page.jsx:171 | throws iff the child has no entry in the map, is NaN iff the child's list is empty, and otherwise is the done count over the list length times 100, in [0, 100], 100 iff all are done and 0 iff none is |
| FamilyDashboard.FetchedMapIsRenderable | src/app/child-task/page.jsx:63-78 | a task map built from a complete fetch has an entry for every fetched child, so every card renders |
| FamilyDashboard.NewChildWithOldMapThrows | src/app/child-task/page.jsx:63-72 | when the children are set but the task requests fail, a new child missing from the old map makes its card's count and progress bar throw |
| FamilyDashboard.Dashboard.constructor | src/app/child-task/page.jsx:43-44 | the page starts from the sample children and tasks it is given |
| FamilyDashboard.Dashboard.FetchChildrenAndTasks | src/app/child-task/page.jsx:54-85 | the children are replaced once they arrive, and the task map once every child's tasks have arrived; after a complete fetch every child has a task list |
| FamilyDashboard.Dashboard.CompleteTask | src/app/child-task/page.jsx:87-107 | the server's task replaces the tasks with that id in that child's list only; every other list and key is unchanged |
| Calendar.FindCategory | src/app/calender/page.jsx:194 | `find` returns the first category of the table with that value, or none exactly when no category has it |
| Calendar.EventColor | src/app/calender/page.jsx:35-40 | the four categories get their colours, and "bg-gray-500" is returned iff the category is none of them |
| Calendar.EventsOn | src/app/calender/page.jsx:198-200 | a day's list holds exactly the events whose date string is the day's, in list order |
| Calendar.AddedEventListedOnItsDay | src/app/calender/page.jsx:259-261 | an added event appears at the end of its own day's list and changes no other day's list |
| Calendar.Replaced | src/app/calender/page.jsx:164 | only the events with the edited id are replaced by the server's copy, in place |
| Calendar.WithoutEvent | src/app/calender/page.jsx:176 | exactly the events with the id are removed, the rest keep their order |
| Calendar.DeletedEventNotListed | src/app/calender/page.jsx:176 | after a deletion no day lists the event, and every other event of the day stays listed |
| Calendar.CalendarPage.constructor | src/app/calender/page.jsx:47-50 | the page starts with no events and none selected |
| Calendar.CalendarPage.AddEvent | src/app/calender/page.jsx:123-158 | without a stored token nothing changes; otherwise a successful POST appends the server's event |
| Calendar.CalendarPage.UpdateEvent | src/app/calender/page.jsx:161-171 | on success the events become `Replaced` of the old events and the details panel closes (the page never calls this handler) |
| Calendar.CalendarPage.DeleteEvent | src/app/calender/page.jsx:173-191 | on success exactly the events with the id are removed and the details panel closes |
| MealPlanner.PlanMap | src/app/meal-planner/page.jsx:119-122 | the map has an entry for exactly the returned dates |
| MealPlanner.PlanMapKeepsLastEntry | src/app/meal-planner/page.jsx:120-122 | each date holds the meals of the last entry for that date |
| MealPlanner.SlotOf | src/app/meal-planner/page.jsx:352 | a slot of a date absent from the plan, or a slot the date lacks, reads as no meal; a stored slot reads back exactly what it holds |
| MealPlanner.WithSlot | src/app/meal-planner/page.jsx:289-295 | setting a slot adds the date and slot if missing and changes no other date and no other slot of the date |
| MealPlanner.WithSlotChangesOneSlot | src/app/meal-planner/page.jsx:289-295 | after setting, the slot reads the new value and every other slot reads as before |
| MealPlanner.AssignThenRemoveIsEmpty | src/app/meal-planner/page.jsx:322-328 | assigning a meal and then removing it leaves the slot reading as empty |
| MealPlanner.FilteredRecipes | src/app/meal-planner/page.jsx:344-349 | a recipe is kept iff it has a name containing the search term ignoring case and, when an allergen is chosen, does not list it; order is kept |
| MealPlanner.NoFilterShowsNamedRecipes | src/app/meal-planner/page.jsx:344-349 | with no search and no allergen, exactly the recipes that have a name are listed |
| MealPlanner.ReplacedRecipe | src/app/meal-planner/page.jsx:227-229 | only the recipes with the saved record's id are replaced, in place |
| MealPlanner.WithoutRecipe | src/app/meal-planner/page.jsx:253 | exactly the recipes with the id are removed, the rest keep their order |
| MealPlanner.Planner.constructor | src/app/meal-planner/page.jsx:70-71 | the planner starts with no meals and no recipes |
| MealPlanner.Planner.FetchWeeklyMealPlan | src/app/meal-planner/page.jsx:101-140 | on success the meals become the map built from the week's entries; otherwise they are unchanged |
| MealPlanner.Planner.AssignMeal | src/app/meal-planner/page.jsx:269-309 | on success the slot holds the recipe and no other slot changes |
| MealPlanner.Planner.RemoveMeal | src/app/meal-planner/page.jsx:311-342 | on success the slot holds null and no other slot changes |
| MealPlanner.Planner.AddRecipe | src/app/meal-planner/page.jsx:173-210 | on success the server's recipe is appended |
| MealPlanner.Planner.UpdateRecipe | src/app/meal-planner/page.jsx:212-244 | on success the recipes become `ReplacedRecipe` of the old recipes |
| MealPlanner.Planner.DeleteRecipe | src/app/meal-planner/page.jsx:246-267 | on success the recipes become `WithoutRecipe` of the old recipes |
| AdminDashboard.FilteredUsers | src/app/admin/dash-baord/page.jsx:180-188 | the table is an order-preserving subsequence of the users; with 'all' a user is kept iff the search matches its username, email or full name ignoring case, otherwise iff it also has that plan |
| AdminDashboard.EmptySearchListsUsersWithAField | src/app/admin/dash-baord/page.jsx:181-186 | an empty search lists exactly the users that have a username, email or full name |
| AdminDashboard.PlanFilterNarrows | src/app/admin/dash-baord/page.jsx:187 | a user listed under a plan filter is also listed under 'all' |
| AdminDashboard.AddedUserListedLast | src/app/admin/dash-baord/page.jsx:112 | an added user appears at the end of the table iff it passes the filter; the rest of the table is unchanged |
| AdminDashboard.ReplacedUser | src/app/admin/dash-baord/page.jsx:163 | only the users with the id are replaced by the server's record, in place |
| AdminDashboard.WithoutUser | src/app/admin/dash-baord/page.jsx:174 | exactly the users with the id are removed, the rest keep their order |
| AdminDashboard.UserTable.constructor | src/app/admin/dash-baord/page.jsx:23 | the table starts empty |
| AdminDashboard.UserTable.AddUser | src/app/admin/dash-baord/page.jsx:108-148 | on success the server's user is appended |
| AdminDashboard.UserTable.UpdateUser | src/app/admin/dash-baord/page.jsx:150-168 | on success the users become `ReplacedUser` of the old users |
| AdminDashboard.UserTable.DeleteUser | src/app/admin/dash-baord/page.jsx:171-178 | on success the users become `WithoutUser` of the old users |

## Behaviour of the code worth knowing

- **When state changes.** Local state changes only after a request
  succeeds, and nothing is rolled back. Every handler here is a function
  of the server's answer.
- **Progress values.** Every progress bar is given the floating-point
  value of `done / total * 100`, without rounding; the model treats it as
  an exact real. Only the per-category completion rate on the local board
  is rounded (`Common.RoundedPercent`).
- **Repeated completions.** The child-details pages credit 10 points on
  every successful completion, including a task that was already done
  (`ChildData.CompletionAddsTenPoints`).
- **Redemption guard.** Only the disabled button keeps a redemption from
  exceeding the balance (`ChildData.RedeemEnabled`). The amount deducted
  is the one the server reports.
- **Response order.** There is no ordering logic between responses; the
  last state update to run wins.
- **Status names.** The local board uses 'todo', 'inProgress' and
  'completed'. The other pages use 'to-do', 'in-progress' and 'done'. Each
  module keeps its page's own names.
- **Family dashboard rendering.** The children are set before the task
  requests finish, and a failed task request keeps the old map, so a child
  without an entry makes the page throw
  (`FamilyDashboard.NewChildWithOldMapThrows`).
- **Unused handlers.** Two handlers are defined but never called, and the
  model covers them all the same:
  - the child-tasks page's `updateReward`
    (`ChildTasks.ChildTasksPage.UpdateReward`);
  - the calendar page's `handleUpdateEvent`
    (`Calendar.CalendarPage.UpdateEvent`), since the event-details dialog
    offers only delete and close.

## Left out

- Network requests, headers, bearer tokens and URLs. They are replaced by
  parameters: a success flag and the returned record, or `None` when the
  request threw.
- localStorage persistence and reload (`childtask` saves and restores its
  state). The model starts from an empty page instead. The calendar's
  stored token is a parameter.
- The 401/403 redirect branches and toasts, which are notifications and
  navigation, not state.
- The re-fetches that follow some updates, which replace state with
  whatever the server returns:
  - `fetchRewards` after a redemption;
  - `fetchPoints`;
  - the child-data page's `fetchChildren`, `checkLateTasks` and
    `fetchPredefinedRewards`;
  - the per-child task loads;
  - `fetchRecipes`, `fetchEvents`, `fetchUsers` and the analytics fetch.
- `addChild` of the two child-details pages and `handleSelectChild`: a
  POST, or a selection plus a fetch, with no local bookkeeping.
- Rendering: charts, confetti, audio, the child-data priority pie and the
  month and week navigation.
- Dates:
  - day numbers and milliseconds are integers;
  - date strings are opaque values that are already formatted;
  - `date-fns` parsing and formatting are not modelled.
- `LocalTaskBoard.NextOccurrence`: shifts the due date by a whole number of
  days. It does not reproduce `parseISO(date.toString())` on a `Date`
  object, which the library rejects as invalid.
- Common.RoundedPercent: rounds the exact fraction `done / total * 100`,
  while the page rounds the double-precision result. The two differ when
  the double falls just below a half: 23 of 40 gives 57.49999999999999 on
  the page, so 57, and 58 in the model; 29 of 200 gives 14 against 15.
  Floating-point arithmetic is not modelled.
- `FamilyDashboard.Dashboard.FetchChildrenAndTasks`: the per-child task
  requests do not check `res.ok`, so an error body would be stored as that
  child's task list. The model takes every body to be a task list.
- `Common.LowerChar`: lower-casing folds only the ASCII letters, not the
  full Unicode case mapping.
- Translated labels (category names, the cumulative reward's title and
  description) are opaque strings.
- `LocalTaskBoard.FilteredAndSortedTasks`: covers only the two sort keys
  the page offers. The comparator's fallback `return 0` for any other key
  is not modelled.
- `FamilyDashboard.Dashboard.CompleteTask`: requires the child to have a
  task list. In the code a missing list throws inside the state update,
  and the page only offers the button for children whose list is shown.
- `TaskManager.Kanban.OnDragEnd`: the code splices the column arrays of
  the current state in place before setting the state. The model works on
  values, so it does not capture that aliasing.
- `TaskManager.Kanban.OnDragEnd`: the status PUT that follows the move
  sends the moved card's id. It changes no state and is not modelled.
- Concurrent requests interleaving, which the code does not coordinate.
- Finance, admin detail, authentication, profile, plan, navigation and
  toast pages, and the axios instances and configuration. They are not
  part of this model.
