/** Records and reducers shared by the two child-details pages: the task and
    reward records the server returns, and the list updates both pages apply
    once a request has succeeded. */
module ChildDetails {
  import opened Common

  /** A child task as the server returns it (`_id`, `content`, `priority`,
      `status` such as "to-do" or "done", `dueDate`). */
  datatype ApiTask = ApiTask(id: string, content: string, priority: string, status: string, dueDate: string)

  /** A reward record. The cumulative reward built locally has no `_id`. */
  datatype ApiReward = ApiReward(id: Option<string>, title: string, description: string, points: int,
                                 childId: Option<string>)

  const DoneStatus := "done"

  /** `{ ...task, status: "done" }` for the task with that `_id`. */
  function MarkDone(tasks: seq<ApiTask>, taskId: string): (r: seq<ApiTask>)
    ensures |r| == |tasks|
    ensures forall i :: 0 <= i < |tasks| && tasks[i].id == taskId ==> r[i] == tasks[i].(status := DoneStatus)
    ensures forall i :: 0 <= i < |tasks| && tasks[i].id != taskId ==> r[i] == tasks[i]
  {
    MapWhere(tasks, (t: ApiTask) => t.id == taskId, (t: ApiTask) => t.(status := DoneStatus))
  }

  /** `tasks.filter(task => task._id !== taskId)`. */
  function WithoutTask(tasks: seq<ApiTask>, taskId: string): (r: seq<ApiTask>)
    ensures forall t :: t in r <==> t in tasks && t.id != taskId
    ensures Subseq(r, tasks)
  {
    FilterIsSubseq(tasks, (t: ApiTask) => t.id != taskId);
    Filter(tasks, (t: ApiTask) => t.id != taskId)
  }

  /** `tasks.filter(task => task.status !== "done")`. */
  function WithoutDone(tasks: seq<ApiTask>): (r: seq<ApiTask>)
    ensures forall t :: t in r <==> t in tasks && t.status != DoneStatus
    ensures Subseq(r, tasks)
  {
    FilterIsSubseq(tasks, (t: ApiTask) => t.status != DoneStatus);
    Filter(tasks, (t: ApiTask) => t.status != DoneStatus)
  }

  function CountDone(tasks: seq<ApiTask>): (n: nat)
    ensures n <= |tasks|
    ensures n == 0 <==> forall t :: t in tasks ==> t.status != DoneStatus
  {
    CountWhere(tasks, (t: ApiTask) => t.status == DoneStatus)
  }

  /** `calculateProgress()` of both pages: the share of tasks that are "done". */
  function TaskProgress(tasks: seq<ApiTask>): (r: real)
    ensures 0.0 <= r <= 100.0
    ensures tasks == [] ==> r == 0.0
    ensures tasks != [] ==> IsPercentOf(r, CountDone(tasks), |tasks|)
    ensures r == 0.0 <==> forall t :: t in tasks ==> t.status != DoneStatus
    ensures r == 100.0 <==> tasks != [] && forall t :: t in tasks ==> t.status == DoneStatus
  {
    Progress(CountDone(tasks), |tasks|)
  }

  /** Clearing the completed tasks brings the progress bar to zero. */
  lemma ClearingCompletedResetsProgress(tasks: seq<ApiTask>)
    ensures TaskProgress(WithoutDone(tasks)) == 0.0
  {
  }

  /** Completing a task never lowers the number of completed tasks, and
      completing a task that was not yet done raises it. */
  lemma {:induction false} MarkDoneRaisesCount(tasks: seq<ApiTask>, taskId: string)
    ensures CountDone(MarkDone(tasks, taskId)) >= CountDone(tasks)
    ensures (exists t :: t in tasks && t.id == taskId && t.status != DoneStatus) ==>
      CountDone(MarkDone(tasks, taskId)) > CountDone(tasks)
  {
    if tasks != [] {
      var r := MarkDone(tasks, taskId);
      var rest := MarkDone(tasks[1..], taskId);
      assert forall i :: 0 <= i < |rest| ==> r[1..][i] == rest[i];
      assert r[1..] == rest;
      CountDoneFirst(tasks);
      CountDoneFirst(r);
      MarkDoneRaisesCount(tasks[1..], taskId);
      if exists t :: t in tasks && t.id == taskId && t.status != DoneStatus {
        var t :| t in tasks && t.id == taskId && t.status != DoneStatus;
        if t != tasks[0] {
          assert t in tasks[1..];
        }
      }
    }
  }

  /** The count of a non-empty list splits into its head and its tail. */
  lemma CountDoneFirst(tasks: seq<ApiTask>)
    requires tasks != []
    ensures CountDone(tasks) == (if tasks[0].status == DoneStatus then 1 else 0) + CountDone(tasks[1..])
  {
  }

  // ---------------------------------------------------------------------
  // The cumulative reward
  // ---------------------------------------------------------------------

  /** Points a completed task earns. */
  const PointsPerTask := 10

  /** The cumulative reward created when a child has none yet. */
  function CumulativeReward(title: string, description: string, points: int, childId: Option<string>): (r: ApiReward)
    ensures r.points == points && r.childId == childId && r.id.None?
  {
    ApiReward(None, title, description, points, childId)
  }

  /** `[{ ...rewards[0], points: rewards[0].points + pointsToAdd }, ...rewards.slice(1)]`. */
  function IncrementFirst(rewards: seq<ApiReward>, pointsToAdd: int): (r: seq<ApiReward>)
    requires rewards != []
    ensures |r| == |rewards| && r[1..] == rewards[1..]
    ensures r[0] == rewards[0].(points := rewards[0].points + pointsToAdd)
  {
    [rewards[0].(points := rewards[0].points + pointsToAdd)] + rewards[1..]
  }

  /** The sum of the points of a list of rewards. */
  function TotalPoints(rewards: seq<ApiReward>): int
  {
    if rewards == [] then 0 else rewards[0].points + TotalPoints(rewards[1..])
  }

  /** Incrementing the first reward adds exactly that many points to the total. */
  lemma IncrementFirstAddsPoints(rewards: seq<ApiReward>, pointsToAdd: int)
    requires rewards != []
    ensures TotalPoints(IncrementFirst(rewards, pointsToAdd)) == TotalPoints(rewards) + pointsToAdd
  {
    var r := IncrementFirst(rewards, pointsToAdd);
    assert r[1..] == rewards[1..];
  }
}
