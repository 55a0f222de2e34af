/** The attack table of Core/Combat/Registry/AttackRegistry.cs. */
module CombatRegistry {
  import Wrappers

  /** Core/Combat/Data/AttackType.cs. */
  datatype AttackType = None | RockBody | BasicProjectile | Fireball

  datatype ProjectileSettings = ProjectileSettings(initialSpeed: int, targetSpeed: int, acceleration: real, lifetime: int)

  /** An entry of the table: name, coefficient and optional projectile settings. */
  datatype RegistryEntry = RegistryEntry(
    name: string,
    damageCoefficient: real,
    projectileSettings: Wrappers.Option<ProjectileSettings>)

  const NoneEntry: RegistryEntry := RegistryEntry("None", 0.0, Wrappers.None)

  /** The registry; BasicProjectile has no entry. */
  const Attacks: map<AttackType, RegistryEntry> := map[
    AttackType.None := NoneEntry,
    RockBody := RegistryEntry("RockBody", 1.0, Wrappers.None),
    Fireball := RegistryEntry("Fireball", 1.5, Wrappers.Some(ProjectileSettings(200, 200, 0.0, 5)))
  ]

  /** The registry's name for each attack type, as the enum spells it. */
  function TypeName(t: AttackType): string
  {
    match t
    case None => "None"
    case RockBody => "RockBody"
    case BasicProjectile => "BasicProjectile"
    case Fireball => "Fireball"
  }

  /** Looks an attack type up; a type missing from the table falls back to the None entry. */
  function GetAttackData(t: AttackType): (d: RegistryEntry)
    ensures d in Attacks.Values
    ensures t in Attacks ==> d.name == TypeName(t)
    ensures t !in Attacks ==> d.name == "None" && d.damageCoefficient == 0.0
  {
    if t in Attacks then Attacks[t] else Attacks[AttackType.None]
  }

  /** The table holds exactly None, RockBody and Fireball. */
  lemma RegisteredTypes()
    ensures Attacks.Keys == {AttackType.None, RockBody, Fireball}
    ensures |Attacks| == 3
  {
    assert Attacks.Keys == {AttackType.None, RockBody, Fireball};
  }

  /** BasicProjectile is missing, so it resolves to the harmless None entry. */
  lemma BasicProjectileFallsBackToNone()
    ensures GetAttackData(BasicProjectile) == NoneEntry
  {
  }

  /** The only entry with projectile settings is Fireball's, at 200/200/0/5. */
  lemma OnlyFireballIsAProjectile(t: AttackType)
    ensures GetAttackData(t).projectileSettings.Some? <==> t == Fireball
    ensures t == Fireball ==> GetAttackData(t).projectileSettings.value == ProjectileSettings(200, 200, 0.0, 5)
  {
  }
}
