/** The second child-details page: the selected child's tasks and rewards,
    where completing a task fetches the child's rewards from the server and
    then either creates the cumulative reward or adds ten points to the first
    fetched one. Each request's answer is a parameter. */
module ChildTasks {
  import opened Common
  import opened ChildDetails

  /** `rewards.map(r => r._id === id ? { ...r, points } : r)`. */
  function SetRewardPoints(rewards: seq<ApiReward>, id: Option<string>, points: int): (r: seq<ApiReward>)
    ensures |r| == |rewards|
    ensures forall i :: 0 <= i < |rewards| ==>
      r[i] == if rewards[i].id == id then rewards[i].(points := points) else rewards[i]
  {
    MapWhere(rewards, (w: ApiReward) => w.id == id, (w: ApiReward) => w.(points := points))
  }

  /** The rewards after `completeTask`, from the task PUT's `ok`, the fetched
      reward list (`None` when that fetch failed), the created reward (`None`
      when the POST failed) and the reward PUT's `ok`. With rewards on the
      server, the new balance is the FETCHED first reward's points plus ten,
      written onto every local reward with the same `_id`. */
  function RewardsAfterCompletion(rewards: seq<ApiReward>, taskOk: bool, fetched: Option<seq<ApiReward>>,
                                  created: Option<ApiReward>, updateOk: bool): (r: seq<ApiReward>)
    ensures !taskOk || fetched.None? ==> r == rewards
    ensures taskOk && fetched == Some([]) ==> r == (if created.Some? then [created.value] else rewards)
    ensures taskOk && fetched.Some? && fetched.value != [] && !updateOk ==> r == rewards
    ensures taskOk && fetched.Some? && fetched.value != [] && updateOk ==>
      r == SetRewardPoints(rewards, fetched.value[0].id, fetched.value[0].points + PointsPerTask)
  {
    if !taskOk || fetched.None? then rewards
    else if fetched.value == [] then
      if created.Some? then [created.value] else rewards
    else if updateOk then
      SetRewardPoints(rewards, fetched.value[0].id, fetched.value[0].points + PointsPerTask)
    else rewards
  }

  predicate UniqueRewardIds(rewards: seq<ApiReward>)
  {
    forall i, j :: 0 <= i < j < |rewards| ==> rewards[i].id != rewards[j].id
  }

  /** When the page already shows what the server holds and reward ids are
      unique, a completion adds ten points to the first reward and changes no
      other: the same update `updateReward(10)` would make. */
  lemma CompletionMatchesIncrement(rewards: seq<ApiReward>, created: Option<ApiReward>)
    requires rewards != [] && UniqueRewardIds(rewards)
    ensures RewardsAfterCompletion(rewards, true, Some(rewards), created, true) == IncrementFirst(rewards, PointsPerTask)
  {
    var r := RewardsAfterCompletion(rewards, true, Some(rewards), created, true);
    var inc := IncrementFirst(rewards, PointsPerTask);
    forall i | 0 <= i < |rewards| ensures r[i] == inc[i] {
      if i > 0 {
        assert rewards[i].id != rewards[0].id;
        assert inc[i] == inc[1..][i - 1];
      }
    }
  }

  /** As written, the ten points are added to the fetched balance, not to the
      one on screen: when the two differ the page shows the server's value
      plus ten. */
  lemma CompletionUsesFetchedBalance()
    ensures var shown := ApiReward(Some("r1"), "Stars", "", 30, None);
      var onServer := shown.(points := 50);
      RewardsAfterCompletion([shown], true, Some([onServer]), None, true) == [shown.(points := 60)]
  {
  }

  /** `updateReward(pointsToAdd)` on the rewards the page shows: with none, the
      created reward (when the POST succeeded) becomes the whole list;
      otherwise the first reward gains the points when the PUT succeeded. */
  function RewardsAfterUpdate(rewards: seq<ApiReward>, pointsToAdd: int, created: Option<ApiReward>,
                              updateOk: bool): (r: seq<ApiReward>)
    ensures rewards == [] ==> r == (if created.Some? then [created.value] else [])
    ensures rewards != [] && !updateOk ==> r == rewards
    ensures rewards != [] && updateOk ==>
              |r| == |rewards| && r[1..] == rewards[1..] &&
              r[0] == rewards[0].(points := rewards[0].points + pointsToAdd)
  {
    if rewards == [] then
      if created.Some? then [created.value] else rewards
    else if updateOk then IncrementFirst(rewards, pointsToAdd)
    else rewards
  }

  /** The fields of the reward edit form. */
  datatype RewardEdit = RewardEdit(title: string, description: string, points: int)

  /** `editReward`: `rewards[0]._id` throws on an empty list before the request;
      otherwise a successful PUT merges the form into the first reward. */
  function RewardsAfterEdit(rewards: seq<ApiReward>, edit: RewardEdit, ok: bool): (r: seq<ApiReward>)
    ensures rewards == [] || !ok ==> r == rewards
    ensures rewards != [] && ok ==>
              |r| == |rewards| && r[1..] == rewards[1..] &&
              r[0] == rewards[0].(title := edit.title, description := edit.description, points := edit.points)
  {
    if rewards == [] || !ok then rewards
    else [rewards[0].(title := edit.title, description := edit.description, points := edit.points)] + rewards[1..]
  }

  /** Editing twice with the same form is editing once. */
  lemma EditIdempotent(rewards: seq<ApiReward>, edit: RewardEdit)
    ensures RewardsAfterEdit(RewardsAfterEdit(rewards, edit, true), edit, true) == RewardsAfterEdit(rewards, edit, true)
  {
  }

  class ChildTasksPage {
    var tasks: seq<ApiTask>
    var rewards: seq<ApiReward>
    var selectedChild: Option<string>

    constructor ()
      ensures tasks == [] && rewards == [] && selectedChild == None
    {
      tasks, rewards, selectedChild := [], [], None;
    }

    /** `addTask`: the server's task goes at the end. */
    method AddTask(ok: bool, added: ApiTask)
      modifies this
      ensures tasks == if ok then old(tasks) + [added] else old(tasks)
      ensures rewards == old(rewards) && selectedChild == old(selectedChild)
    {
      if ok {
        tasks := tasks + [added];
      }
    }

    /** `completeTask`: the task is done once its PUT succeeds, whatever
        happens to the reward requests that follow. */
    method CompleteTask(taskId: string, taskOk: bool, fetched: Option<seq<ApiReward>>,
                        created: Option<ApiReward>, updateOk: bool)
      modifies this
      ensures tasks == if taskOk then MarkDone(old(tasks), taskId) else old(tasks)
      ensures rewards == RewardsAfterCompletion(old(rewards), taskOk, fetched, created, updateOk)
      ensures selectedChild == old(selectedChild)
    {
      if !taskOk {
        return;
      }
      tasks := MarkDone(tasks, taskId);
      if fetched.None? {
        return;
      }
      if fetched.value == [] {
        if created.Some? {
          rewards := [created.value];
        }
      } else if updateOk {
        var rewardToUpdate := fetched.value[0];
        rewards := SetRewardPoints(rewards, rewardToUpdate.id, rewardToUpdate.points + PointsPerTask);
      }
    }

    method UpdateReward(pointsToAdd: int, created: Option<ApiReward>, updateOk: bool)
      modifies this
      ensures rewards == RewardsAfterUpdate(old(rewards), pointsToAdd, created, updateOk)
      ensures old(rewards) != [] && updateOk ==>
        TotalPoints(rewards) == TotalPoints(old(rewards)) + pointsToAdd
      ensures tasks == old(tasks) && selectedChild == old(selectedChild)
    {
      if rewards == [] {
        if created.Some? {
          rewards := [created.value];
        }
      } else if updateOk {
        IncrementFirstAddsPoints(rewards, pointsToAdd);
        rewards := IncrementFirst(rewards, pointsToAdd);
      }
    }

    method EditReward(edit: RewardEdit, ok: bool)
      modifies this
      ensures rewards == RewardsAfterEdit(old(rewards), edit, ok)
      ensures tasks == old(tasks) && selectedChild == old(selectedChild)
    {
      rewards := RewardsAfterEdit(rewards, edit, ok);
    }

    method DeleteTask(taskId: string, ok: bool)
      modifies this
      ensures tasks == if ok then WithoutTask(old(tasks), taskId) else old(tasks)
      ensures rewards == old(rewards) && selectedChild == old(selectedChild)
    {
      if ok {
        tasks := WithoutTask(tasks, taskId);
      }
    }

    method DeleteAllCompletedTasks(ok: bool)
      modifies this
      ensures tasks == if ok then WithoutDone(old(tasks)) else old(tasks)
      ensures ok ==> TaskProgress(tasks) == 0.0
      ensures rewards == old(rewards) && selectedChild == old(selectedChild)
    {
      if ok {
        tasks := WithoutDone(tasks);
        ClearingCompletedResetsProgress(old(tasks));
      }
    }

    /** `addPredefinedReward`: the server's copy goes at the end. */
    method AddPredefinedReward(ok: bool, added: ApiReward)
      modifies this
      ensures rewards == if ok then old(rewards) + [added] else old(rewards)
      ensures tasks == old(tasks) && selectedChild == old(selectedChild)
    {
      if ok {
        rewards := rewards + [added];
      }
    }
  }
}
