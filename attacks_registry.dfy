/** The attack table of Core/Combat/Attacks/AttackRegistry.cs. */
module AttacksRegistry {

  /** Core/Combat/Attacks/AttackType.cs. */
  datatype AttackType = None | RockBody | Fireball

  datatype RegistryEntry = RegistryEntry(name: string, damageCoefficient: real)

  const Attacks: map<AttackType, RegistryEntry> := map[
    AttackType.None := RegistryEntry("None", 0.0),
    RockBody := RegistryEntry("RockBody", 1.0),
    Fireball := RegistryEntry("Fireball", 1.5)
  ]

  /** Looks an attack type up, falling back to the None entry for a missing type. */
  function GetAttackData(t: AttackType): (d: RegistryEntry)
    ensures d in Attacks.Values
    ensures t !in Attacks ==> d == Attacks[AttackType.None]
  {
    if t in Attacks then Attacks[t] else Attacks[AttackType.None]
  }

  /** Every enum value has an entry, so the fallback is never taken. */
  lemma EveryTypeIsRegistered(t: AttackType)
    ensures t in Attacks
    ensures GetAttackData(t) == Attacks[t]
  {
  }

  /** Coefficients: None 0, RockBody 1, Fireball 1.5; each entry carries its type's name. */
  lemma Coefficients()
    ensures GetAttackData(AttackType.None) == RegistryEntry("None", 0.0)
    ensures GetAttackData(RockBody) == RegistryEntry("RockBody", 1.0)
    ensures GetAttackData(Fireball) == RegistryEntry("Fireball", 1.5)
  {
  }
}
