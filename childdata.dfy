/** The parent's child-details page backed by the server: one selected
    child's tasks and rewards, the available points balance, and the
    predefined reward catalogue. Each handler's local update runs only after
    its request answered with `ok`; that answer is a parameter here. */
module ChildData {
  import opened Common
  import opened ChildDetails

  /** The child fields this page uses. */
  datatype ChildRecord = ChildRecord(id: string, name: string)

  /** The "add task" form. An empty `childId` is the unselected state. */
  datatype TaskForm = TaskForm(content: string, priority: string, childId: string, dueDate: string,
                               recurrence: string, forAllChildren: bool)

  /** The body `addTask` posts. */
  datatype TaskPayload = TaskPayload(content: string, priority: string, dueDate: string, recurrence: string,
                                     forAllChildren: bool, childIds: seq<string>)

  function ChildIds(children: seq<ChildRecord>): (r: seq<string>)
    ensures |r| == |children| && forall i :: 0 <= i < |r| ==> r[i] == children[i].id
  {
    seq(|children|, i requires 0 <= i < |children| => children[i].id)
  }

  /** `addTask`'s guard and payload: no request unless the task is for all
      children or a child is chosen; then one task for every child's `_id`,
      or for the chosen child only. */
  function AddTaskRequest(form: TaskForm, children: seq<ChildRecord>): (r: Option<TaskPayload>)
    ensures r.None? <==> !form.forAllChildren && form.childId == ""
    ensures r.Some? && form.forAllChildren ==> r.value.childIds == ChildIds(children)
    ensures r.Some? && !form.forAllChildren ==> r.value.childIds == [form.childId]
    ensures r.Some? ==> r.value.content == form.content && r.value.forAllChildren == form.forAllChildren
  {
    if !form.forAllChildren && form.childId == "" then None
    else
      Some(TaskPayload(form.content, form.priority, form.dueDate, form.recurrence, form.forAllChildren,
                       if form.forAllChildren then ChildIds(children) else [form.childId]))
  }

  /** Every child named in a payload is a child of the page or the chosen one. */
  lemma PayloadTargetsKnownChildren(form: TaskForm, children: seq<ChildRecord>, id: string)
    requires AddTaskRequest(form, children).Some? && id in AddTaskRequest(form, children).value.childIds
    ensures (exists c :: c in children && c.id == id) || (!form.forAllChildren && id == form.childId)
  {
    if form.forAllChildren {
      var ids := ChildIds(children);
      var i :| 0 <= i < |ids| && ids[i] == id;
      assert children[i] in children;
    }
  }

  /** `completeTask`'s reward update: the first cumulative reward when there is
      none, otherwise ten more points on the first reward. */
  function RewardsAfterCompletion(rewards: seq<ApiReward>, title: string, description: string,
                                  selectedChild: Option<string>): (r: seq<ApiReward>)
    ensures r != []
    ensures rewards == [] ==> r == [CumulativeReward(title, description, PointsPerTask, selectedChild)]
    ensures rewards != [] ==> |r| == |rewards| && r[1..] == rewards[1..] &&
                              r[0] == rewards[0].(points := rewards[0].points + PointsPerTask)
  {
    if rewards == [] then [CumulativeReward(title, description, PointsPerTask, selectedChild)]
    else IncrementFirst(rewards, PointsPerTask)
  }

  /** Every completion adds exactly ten points to the child's reward total. */
  lemma CompletionAddsTenPoints(rewards: seq<ApiReward>, title: string, description: string,
                                selectedChild: Option<string>)
    ensures TotalPoints(RewardsAfterCompletion(rewards, title, description, selectedChild))
            == TotalPoints(rewards) + PointsPerTask
  {
    if rewards != [] {
      IncrementFirstAddsPoints(rewards, PointsPerTask);
    }
  }

  /** What the follow-up `updateReward(10)` does with the `rewards` it sees
      (the list from before the completion): with no first reward it posts a
      new cumulative reward and leaves the state alone; otherwise it reads
      the undefined `rewardUpdate` and the ReferenceError is caught and
      reported. Neither path changes the page's state. */
  datatype RewardFollowUp = CreateRewardRequest(reward: ApiReward) | UndefinedReference

  function UpdateRewardFollowUp(rewards: seq<ApiReward>, title: string, description: string,
                                selectedChild: Option<string>): (r: RewardFollowUp)
    ensures r.CreateRewardRequest? <==> rewards == []
    ensures r.CreateRewardRequest? ==> r.reward.points == PointsPerTask && r.reward.childId == selectedChild
  {
    if rewards == [] then CreateRewardRequest(CumulativeReward(title, description, PointsPerTask, selectedChild))
    else UndefinedReference
  }

  /** The redeem button of a predefined reward is enabled unless the balance is below the cost. */
  predicate RedeemEnabled(availablePoints: int, pointsRequired: int): (enabled: bool)
    ensures enabled <==> pointsRequired <= availablePoints
  {
    !(availablePoints < pointsRequired)
  }

  /** The balance after `redeemReward`: a predefined redemption the server
      accepted costs the `pointsRequired` it reports; nothing else moves it. */
  function PointsAfterRedeem(availablePoints: int, ok: bool, isPredefined: bool, chargedPoints: int): (r: int)
    ensures ok && isPredefined ==> r == availablePoints - chargedPoints
    ensures !(ok && isPredefined) ==> r == availablePoints
  {
    if ok && isPredefined then availablePoints - chargedPoints else availablePoints
  }

  /** A redemption through an enabled button, charged at the cost shown on it,
      never takes a non-negative balance below zero. */
  lemma EnabledRedeemKeepsBalance(availablePoints: int, pointsRequired: int, ok: bool, isPredefined: bool)
    requires 0 <= availablePoints && RedeemEnabled(availablePoints, pointsRequired)
    ensures PointsAfterRedeem(availablePoints, ok, isPredefined, pointsRequired) >= 0
  {
  }

  class ChildDataPage {
    var children: seq<ChildRecord>
    var tasks: seq<ApiTask>
    var rewards: seq<ApiReward>
    var availablePoints: int
    var selectedChild: Option<string>

    constructor ()
      ensures children == [] && tasks == [] && rewards == [] && availablePoints == 0 && selectedChild == None
    {
      children, tasks, rewards, availablePoints, selectedChild := [], [], [], 0, None;
    }

    /** `completeTask`: on success the task is done, the rewards gain ten
        points, and the follow-up reward update is reported. */
    method CompleteTask(taskId: string, ok: bool, title: string, description: string)
      returns (followUp: Option<RewardFollowUp>)
      modifies this
      ensures !ok ==> tasks == old(tasks) && rewards == old(rewards) && followUp.None?
      ensures ok ==> tasks == MarkDone(old(tasks), taskId)
      ensures ok ==> rewards == RewardsAfterCompletion(old(rewards), title, description, selectedChild)
      ensures ok ==> followUp == Some(UpdateRewardFollowUp(old(rewards), title, description, selectedChild))
      ensures children == old(children) && availablePoints == old(availablePoints)
      ensures selectedChild == old(selectedChild)
    {
      if !ok {
        return None;
      }
      var seen := rewards;
      tasks := MarkDone(tasks, taskId);
      rewards := RewardsAfterCompletion(rewards, title, description, selectedChild);
      followUp := Some(UpdateRewardFollowUp(seen, title, description, selectedChild));
    }

    method DeleteTask(taskId: string, ok: bool)
      modifies this
      ensures tasks == if ok then WithoutTask(old(tasks), taskId) else old(tasks)
      ensures children == old(children) && rewards == old(rewards)
      ensures availablePoints == old(availablePoints) && selectedChild == old(selectedChild)
    {
      if ok {
        tasks := WithoutTask(tasks, taskId);
      }
    }

    method DeleteAllCompletedTasks(ok: bool)
      modifies this
      ensures tasks == if ok then WithoutDone(old(tasks)) else old(tasks)
      ensures ok ==> TaskProgress(tasks) == 0.0
      ensures children == old(children) && rewards == old(rewards)
      ensures availablePoints == old(availablePoints) && selectedChild == old(selectedChild)
    {
      if ok {
        tasks := WithoutDone(tasks);
        ClearingCompletedResetsProgress(old(tasks));
      }
    }

    /** `redeemReward`; the reward list is then re-fetched, which is not modelled. */
    method RedeemReward(ok: bool, isPredefined: bool, chargedPoints: int)
      modifies this
      ensures availablePoints == PointsAfterRedeem(old(availablePoints), ok, isPredefined, chargedPoints)
      ensures children == old(children) && tasks == old(tasks) && rewards == old(rewards)
      ensures selectedChild == old(selectedChild)
    {
      availablePoints := PointsAfterRedeem(availablePoints, ok, isPredefined, chargedPoints);
    }

    method AddCustomReward(ok: bool, added: ApiReward)
      modifies this
      ensures rewards == if ok then old(rewards) + [added] else old(rewards)
      ensures children == old(children) && tasks == old(tasks)
      ensures availablePoints == old(availablePoints) && selectedChild == old(selectedChild)
    {
      if ok {
        rewards := rewards + [added];
      }
    }
  }
}
