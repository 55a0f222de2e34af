/** Completed milestones kept in a set (Autoload/MilestoneManager.cs). */
module MilestoneManager {

  datatype Milestone = GameStarted | TutorialStarted

  /** The set a list of milestones collapses to. */
  function Collapse(ms: seq<Milestone>): (r: set<Milestone>)
    ensures forall m :: m in r <==> m in ms
  {
    if |ms| == 0 then {} else {ms[0]} + Collapse(ms[1..])
  }

  /** Repeats collapse: a milestone listed twice is completed once. */
  lemma RepeatsCollapse(m: Milestone)
    ensures Collapse([m, m]) == {m}
  {
  }

  class MilestoneManager {
    var completed: set<Milestone>

    constructor ()
      ensures completed == {}
    {
      completed := {};
    }

    /** CompleteMilestone: adds it, idempotently, and never removes another. */
    method CompleteMilestone(m: Milestone)
      modifies this
      ensures completed == old(completed) + {m}
    {
      completed := completed + {m};
    }

    /** LoadMilestones: the whole set is replaced by the given milestones. */
    method LoadMilestones(ms: seq<Milestone>)
      modifies this
      ensures completed == Collapse(ms)
    {
      completed := Collapse(ms);
    }

    /** The IsCompleted extension. */
    predicate IsCompleted(m: Milestone)
      reads this
    {
      m in completed
    }
  }

  /** Completing twice is completing once; loading afterwards forgets what is not loaded. */
  method CompleteIsIdempotent() returns (afterTwice: set<Milestone>, afterLoad: bool)
    ensures afterTwice == {GameStarted} && !afterLoad
  {
    var manager := new MilestoneManager();
    manager.CompleteMilestone(GameStarted);
    manager.CompleteMilestone(GameStarted);
    afterTwice := manager.completed;
    manager.LoadMilestones([TutorialStarted, TutorialStarted]);
    afterLoad := manager.IsCompleted(GameStarted);
  }
}
