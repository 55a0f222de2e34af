/** Saved entity stats (Core/GameData/SerializableStats.cs). */
module SerializableStats {
  import opened Wrappers
  import opened CombatTypes

  class SerializableStats {
    var maxHealth: int
    var attack: int
    var defense: int

    /** The defaults: 100 health, 1 attack, 10 defense. */
    constructor ()
      ensures maxHealth == 100 && attack == 1 && defense == 10
    {
      maxHealth := 100;
      attack := 1;
      defense := 10;
    }

    /** The IEntityStats view of the saved values. */
    function AsStats(): StatBlock
      reads this
    {
      StatBlock(maxHealth, attack, defense)
    }

    /** CopyFrom: null changes nothing; otherwise all three values are taken. */
    method CopyFrom(source: Option<StatBlock>)
      modifies this
      ensures source.None? ==> AsStats() == old(AsStats())
      ensures source.Some? ==> AsStats() == source.value
    {
      if source.None? {
        return;
      }
      maxHealth := source.value.maxHealth;
      attack := source.value.attack;
      defense := source.value.defense;
    }
  }

  /** Copying from a null source keeps the defaults; copying from stats takes them. */
  method CopyKeepsDefaultsOnNull() returns (afterNull: StatBlock, afterCopy: StatBlock)
    ensures afterNull == StatBlock(100, 1, 10) && afterCopy == StatBlock(40, 7, 2)
  {
    var saved := new SerializableStats();
    saved.CopyFrom(None);
    afterNull := saved.AsStats();
    saved.CopyFrom(Some(StatBlock(40, 7, 2)));
    afterCopy := saved.AsStats();
  }

  /** Copying the same stats twice leaves what copying them once left. */
  method CopyIsIdempotent(from: StatBlock) returns (once: StatBlock, twice: StatBlock)
    ensures once == from && twice == once
  {
    var saved := new SerializableStats();
    saved.CopyFrom(Some(from));
    once := saved.AsStats();
    saved.CopyFrom(Some(from));
    twice := saved.AsStats();
  }
}
