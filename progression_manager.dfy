/** Resonances and elevation (Autoload/ProgressionManager.cs). */
module ProgressionManager {

  /** GetHealthMultiplier: 1 plus 0.2 per activated resonance. */
  function HealthMultiplier(resonances: int): (m: real)
    ensures resonances >= 0 ==> m >= 1.0
    ensures resonances < 0 ==> m < 1.0
  {
    1.0 + resonances as real * 0.2
  }

  /** GetDamageMultiplier: 1 plus 0.1 per activated resonance. */
  function DamageMultiplier(resonances: int): (m: real)
    ensures resonances >= 0 ==> m >= 1.0
    ensures resonances < 0 ==> m < 1.0
  {
    1.0 + resonances as real * 0.1
  }

  /** More resonances never lower either multiplier, and health always grows twice as fast. */
  lemma MultipliersGrow(a: int, b: int)
    requires a <= b
    ensures HealthMultiplier(a) <= HealthMultiplier(b) && DamageMultiplier(a) <= DamageMultiplier(b)
    ensures HealthMultiplier(b) - HealthMultiplier(a) == 2.0 * (DamageMultiplier(b) - DamageMultiplier(a))
  {
  }

  class ProgressionManager {
    var currentElevation: int
    var activatedResonances: int

    constructor ()
      ensures currentElevation == 1 && activatedResonances == 0
    {
      currentElevation := 1;
      activatedResonances := 0;
    }

    method ActivateResonance()
      modifies this
      ensures activatedResonances == old(activatedResonances) + 1
      ensures currentElevation == old(currentElevation)
    {
      activatedResonances := activatedResonances + 1;
    }

    method AdvanceElevation()
      modifies this
      ensures currentElevation == old(currentElevation) + 1
      ensures activatedResonances == old(activatedResonances)
    {
      currentElevation := currentElevation + 1;
    }

    function GetHealthMultiplier(): real
      reads this
    {
      HealthMultiplier(activatedResonances)
    }

    function GetDamageMultiplier(): real
      reads this
    {
      DamageMultiplier(activatedResonances)
    }

    /** Load: both counters taken verbatim, without validation. */
    method Load(resonances: int, elevation: int)
      modifies this
      ensures activatedResonances == resonances && currentElevation == elevation
    {
      activatedResonances := resonances;
      currentElevation := elevation;
    }
  }

  /**
   * Two resonances give 1.4 and 1.2; a saved negative count is loaded as it is and
   * drops the health multiplier below 1.
   */
  method LoadIsNotValidated() returns (health: real, damage: real, afterBadLoad: real)
    ensures health == 1.4 && damage == 1.2 && afterBadLoad == 0.0
  {
    var progression := new ProgressionManager();
    progression.ActivateResonance();
    progression.ActivateResonance();
    health := progression.GetHealthMultiplier();
    damage := progression.GetDamageMultiplier();
    progression.Load(-5, 1);
    afterBadLoad := progression.GetHealthMultiplier();
  }
}
