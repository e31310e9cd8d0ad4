/** The task checklist of src/pages/QuestDetails.tsx: one boolean per task,
    all false at first; a tap flips one entry until the quest is completed;
    the complete action is offered once every task is done and reports the
    quest's XP to the caller. */
module QuestDetails {
  import opened Wrappers

  datatype Quest = Quest(
    id: string,
    title: string,
    description: string,
    difficulty: string,
    xp: int,
    tasks: seq<string>,
    location: string,
    estimatedTime: string,
    participants: Option<seq<string>>)

  /** The copy of `completedTasks` with entry `i` negated. */
  function Flip(s: seq<bool>, i: nat): seq<bool>
    requires i < |s|
  {
    s[i := !s[i]]
  }

  /** The number of ticked tasks. */
  function CountDone(s: seq<bool>): (n: nat)
    ensures n <= |s|
  {
    if s == [] then 0 else (if s[0] then 1 else 0) + CountDone(s[1..])
  }

  /** Every task ticked; true of the empty checklist. */
  predicate AllDone(s: seq<bool>) {
    forall i :: 0 <= i < |s| ==> s[i]
  }

  /** The done count reaches the number of tasks exactly when every task is done. */
  lemma {:induction false} CountDoneFull(s: seq<bool>)
    ensures CountDone(s) == |s| <==> AllDone(s)
  {
    if s != [] {
      CountDoneFull(s[1..]);
      if AllDone(s) {
        assert AllDone(s[1..]) by {
          forall i | 0 <= i < |s[1..]| ensures s[1..][i] {
            assert s[1..][i] == s[i + 1];
          }
        }
      }
      if CountDone(s) == |s| {
        assert s[0];
        forall i | 0 <= i < |s| ensures s[i] {
          if i > 0 {
            assert s[i] == s[1..][i - 1];
          }
        }
      }
    }
  }

  /** A fresh checklist counts no task as done. */
  lemma {:induction false} CountDoneNone(n: nat)
    ensures CountDone(seq(n, _ => false)) == 0
  {
    if n > 0 {
      assert seq(n, _ => false)[1..] == seq(n - 1, _ => false);
      CountDoneNone(n - 1);
    }
  }

  /** Flipping one entry moves the done count by exactly one. */
  lemma {:induction false} FlipCount(s: seq<bool>, i: nat)
    requires i < |s|
    ensures CountDone(Flip(s, i)) == if s[i] then CountDone(s) - 1 else CountDone(s) + 1
  {
    if i == 0 {
      assert Flip(s, i)[1..] == s[1..];
    } else {
      assert Flip(s, i)[1..] == Flip(s[1..], i - 1);
      FlipCount(s[1..], i - 1);
    }
  }

  /** Toggling the same task twice restores the checklist. */
  lemma FlipTwice(s: seq<bool>, i: nat)
    requires i < |s|
    ensures Flip(Flip(s, i), i) == s
  {
  }

  /** The state of one mounted QuestDetails page. */
  class QuestSession {
    const quest: Quest
    var completedTasks: array<bool>
    var questCompleted: bool

    ghost predicate Valid()
      reads this
    {
      completedTasks.Length == |quest.tasks|
    }

    /** One unticked entry per task, and the quest still open. */
    constructor (quest: Quest)
      ensures Valid() && fresh(completedTasks)
      ensures this.quest == quest
      ensures completedTasks[..] == seq(|quest.tasks|, _ => false)
      ensures !questCompleted
    {
      this.quest := quest;
      completedTasks := new bool[|quest.tasks|](_ => false);
      questCompleted := false;
    }

    /** Tap on task `index`: ignored once the quest is completed. */
    method ToggleTask(index: nat)
      requires Valid()
      requires index < |quest.tasks|
      modifies completedTasks
      ensures Valid()
      ensures completedTasks[..] ==
        if questCompleted then old(completedTasks[..]) else Flip(old(completedTasks[..]), index)
    {
      if questCompleted {
        return;
      }
      completedTasks[index] := !completedTasks[index];
    }

    /** The "n von m Aufgaben" count. */
    function DoneCount(): (n: nat)
      requires Valid()
      reads this, completedTasks
      ensures n <= |quest.tasks|
    {
      CountDone(completedTasks[..])
    }

    predicate AllTasksCompleted()
      reads this, completedTasks
    {
      AllDone(completedTasks[..])
    }

    /** The complete button is rendered: every task done, quest not yet completed. */
    predicate CompleteOffered()
      reads this, completedTasks
    {
      AllTasksCompleted() && !questCompleted
    }

    /** Marks the quest completed and returns the XP handed to `onComplete`. */
    method CompleteQuest() returns (xpGained: int)
      requires Valid()
      modifies this
      ensures Valid()
      ensures questCompleted
      ensures xpGained == quest.xp
      ensures completedTasks == old(completedTasks)
      ensures completedTasks[..] == old(completedTasks[..])
    {
      questCompleted := true;
      xpGained := quest.xp;
    }
  }

  /** The complete button is offered exactly when the done count equals the
      number of tasks and the quest is still open; a quest without tasks
      offers it at once. */
  lemma CompleteOfferedIffAllCounted(q: QuestSession)
    requires q.Valid()
    ensures q.CompleteOffered() <==> q.DoneCount() == |q.quest.tasks| && !q.questCompleted
  {
    CountDoneFull(q.completedTasks[..]);
  }
}
