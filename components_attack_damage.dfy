/**
 * Registry-driven damage for an attack node (Core/Components/AttackDamageComponent.cs):
 * the attack definition comes from the attack type, and only the collision layer is set.
 * Its AttackLayerMap holds the same three entries as the combat component's, so the
 * layer is CombatAttackDamage.AttackLayer.
 */
module ComponentsAttackDamage {
  import opened CombatTypes
  import opened GameConstants
  import AttacksRegistry
  import CombatAttackDamage

  /** The hitbox area, with its back-reference to the damage component. */
  class AttackHitbox {
    var collisionLayer: Layers
    var collisionMask: Layers
    var attackResult: AttackResult
    var damageComponent: AttackDamageComponent?

    constructor (layer: Layers, mask: Layers)
      ensures collisionLayer == layer && collisionMask == mask
      ensures attackResult == NoAttack && damageComponent == null
    {
      collisionLayer := layer;
      collisionMask := mask;
      attackResult := NoAttack;
      damageComponent := null;
    }
  }

  class AttackDamageComponent {
    const hitbox: AttackHitbox?
    const attackType: AttacksRegistry.AttackType
    const faction: Faction
    var currentAttackResult: AttackResult

    constructor (hitbox: AttackHitbox?, attackType: AttacksRegistry.AttackType, faction: Faction)
      ensures this.hitbox == hitbox && this.attackType == attackType && this.faction == faction
      ensures currentAttackResult == NoAttack
    {
      this.hitbox := hitbox;
      this.attackType := attackType;
      this.faction := faction;
      currentAttackResult := NoAttack;
    }

    /** The attack definition is always the registry's entry for the attack type. */
    function AttackData(): AttacksRegistry.RegistryEntry
    {
      AttacksRegistry.GetAttackData(attackType)
    }

    /** _Ready: sets the hitbox's layer from the faction and links the hitbox back; the mask is left alone. */
    method Ready()
      modifies hitbox
      ensures hitbox != null ==>
        hitbox.collisionLayer == CombatAttackDamage.AttackLayer(faction) &&
        hitbox.collisionMask == old(hitbox.collisionMask) &&
        hitbox.attackResult == old(hitbox.attackResult) &&
        hitbox.damageComponent == this
    {
      if hitbox == null {
        return;
      }
      hitbox.collisionLayer := CombatAttackDamage.AttackLayer(faction);
      hitbox.damageComponent := this;
    }

    /** UpdateStats: raw damage of the registry entry for the owner's stats, pushed to the hitbox. */
    method UpdateStats(ownerStats: EntityStats, calculateRawDamage: (EntityStats, AttacksRegistry.RegistryEntry) -> AttackResult)
      modifies this, hitbox
      ensures currentAttackResult == calculateRawDamage(ownerStats, AttacksRegistry.GetAttackData(attackType))
      ensures hitbox != null ==>
        hitbox.attackResult == currentAttackResult &&
        hitbox.collisionLayer == old(hitbox.collisionLayer) &&
        hitbox.collisionMask == old(hitbox.collisionMask) &&
        hitbox.damageComponent == old(hitbox.damageComponent)
    {
      var attackData := AttacksRegistry.GetAttackData(attackType);
      currentAttackResult := calculateRawDamage(ownerStats, attackData);
      if hitbox != null {
        hitbox.attackResult := currentAttackResult;
      }
    }
  }
}
