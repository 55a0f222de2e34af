/** The player's ability loadout, key to scene path (Autoload/AbilityManager.cs). */
module AbilityManager {
  import opened Wrappers

  /** AttackKeys.BasicAttack. */
  const BasicAttack: string := "basic_attack"

  const ProjectileScene: string := "res://Scenes/Attacks/Projectiles/Projectile.tscn"

  /** The loadout a new manager starts with. */
  const DefaultLoadout: map<string, string> := map[BasicAttack := ProjectileScene]

  class AbilityManager {
    var loadout: map<string, string>

    constructor ()
      ensures loadout == DefaultLoadout
    {
      loadout := map[];
      new;
      EquipAbility(BasicAttack, ProjectileScene);
    }

    /** EquipAbility: sets the key, overwriting; no other key changes. */
    method EquipAbility(key: string, scenePath: string)
      modifies this
      ensures loadout == old(loadout)[key := scenePath]
    {
      loadout := loadout[key := scenePath];
    }

    /** UnequipAbility: removes the key, if present; no other key changes. */
    method UnequipAbility(key: string)
      modifies this
      ensures loadout == old(loadout) - {key}
    {
      loadout := loadout - {key};
    }

    /** GetLoadout: a copy. */
    function GetLoadout(): map<string, string>
      reads this
    {
      loadout
    }

    /** GetAbilityScene: the path, or null for a key that is not equipped. */
    function GetAbilityScene(key: string): (r: Option<string>)
      reads this
      ensures r.Some? <==> HasAbility(key)
      ensures r.Some? ==> r.value == loadout[key]
    {
      if key in loadout then Some(loadout[key]) else None
    }

    predicate HasAbility(key: string)
      reads this
    {
      key in loadout
    }
  }

  /**
   * A new manager has the basic attack; equipping a second key leaves it; removing
   * the basic attack leaves only the second key, and a copy taken before is kept.
   */
  method LoadoutOperations() returns (initial: Option<string>, copy: map<string, string>, after: map<string, string>, missing: Option<string>)
    ensures initial == Some(ProjectileScene)
    ensures copy == map[BasicAttack := ProjectileScene, "ability_1" := "res://fireball.tscn"]
    ensures after == map["ability_1" := "res://fireball.tscn"] && missing.None?
  {
    var abilities := new AbilityManager();
    initial := abilities.GetAbilityScene(BasicAttack);
    abilities.EquipAbility("ability_1", "res://fireball.tscn");
    copy := abilities.GetLoadout();
    abilities.UnequipAbility(BasicAttack);
    abilities.UnequipAbility("ability_4");
    after := abilities.GetLoadout();
    missing := abilities.GetAbilityScene(BasicAttack);
  }
}
