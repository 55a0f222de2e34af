/**
 * The milestone set held by GameStateManager, with its operations written as
 * extensions (Autoload/GameStateManager.cs). They behave as MilestoneManager's do.
 */
module GameStateManager {
  import opened MilestoneManager

  class GameStateManager {
    var completedMilestones: set<Milestone>

    constructor ()
      ensures completedMilestones == {}
    {
      completedMilestones := {};
    }

    /** The CompleteMilestone extension. */
    method CompleteMilestone(m: Milestone)
      modifies this
      ensures completedMilestones == old(completedMilestones) + {m}
    {
      completedMilestones := completedMilestones + {m};
    }

    /** The LoadMilestones extension: the set is replaced. */
    method LoadMilestones(ms: seq<Milestone>)
      modifies this
      ensures completedMilestones == Collapse(ms)
    {
      completedMilestones := Collapse(ms);
    }

    predicate IsCompleted(m: Milestone)
      reads this
    {
      m in completedMilestones
    }

    /** Milestone.Complete(): delegates to CompleteMilestone. */
    method Complete(m: Milestone)
      modifies this
      ensures completedMilestones == old(completedMilestones) + {m}
    {
      CompleteMilestone(m);
    }
  }

  /** Complete then IsCompleted holds; another milestone is untouched. */
  method CompleteThenQuery() returns (done: bool, other: bool)
    ensures done && !other
  {
    var manager := new GameStateManager();
    manager.Complete(TutorialStarted);
    done := manager.IsCompleted(TutorialStarted);
    other := manager.IsCompleted(GameStarted);
  }
}
