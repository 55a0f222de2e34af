/**
 * Faction-driven collision setup and damage for an attack node
 * (Core/Combat/Components/AttackDamageComponent.cs).
 */
module CombatAttackDamage {
  import opened CombatTypes
  import opened GameConstants

  /** The damage box each faction's own hurtboxes sit on. */
  function OwnDamageBox(f: Faction): Layers
  {
    if f == EnemyFaction then EnemyDamageBox else PlayerDamageBox
  }

  /** AttackLayerMap: the layer an attack of this faction lives on. */
  function AttackLayer(f: Faction): (layer: Layers)
    ensures layer & (PlayerDamageBox | EnemyDamageBox) == 0
    ensures f == EnemyFaction <==> layer == EnemyAttack
    ensures f != EnemyFaction <==> layer == PlayerAttack
  {
    match f
    case PlayerFaction => PlayerAttack
    case AllyFaction => PlayerAttack
    case EnemyFaction => EnemyAttack
  }

  /** TargetMaskMap: an attack only scans the other side's damage box, never its own. */
  function TargetMask(f: Faction): (mask: Layers)
    ensures mask & OwnDamageBox(f) == 0
    ensures mask != 0
    ensures mask & (PlayerDamageBox | EnemyDamageBox) == mask
  {
    match f
    case PlayerFaction => EnemyDamageBox
    case AllyFaction => EnemyDamageBox
    case EnemyFaction => PlayerDamageBox
  }

  /** Player and ally attacks share one configuration; enemy attacks have the mirror one. */
  lemma AlliesShareTheirLayers()
    ensures AttackLayer(PlayerFaction) == AttackLayer(AllyFaction)
    ensures TargetMask(PlayerFaction) == TargetMask(AllyFaction)
    ensures TargetMask(EnemyFaction) == OwnDamageBox(PlayerFaction)
    ensures TargetMask(PlayerFaction) == OwnDamageBox(EnemyFaction)
  {
  }

  /** The hitbox area the component configures (Core/Combat/Components/AttackHitboxComponent.cs). */
  class AttackHitbox {
    var collisionLayer: Layers
    var collisionMask: Layers
    var attackResult: AttackResult

    constructor (layer: Layers, mask: Layers)
      ensures collisionLayer == layer && collisionMask == mask && attackResult == NoAttack
    {
      collisionLayer := layer;
      collisionMask := mask;
      attackResult := NoAttack;
    }
  }

  /** The owner's stats as this component reads them: a faction and the stat values. */
  datatype OwnerStats = OwnerStats(faction: Faction, stats: EntityStats)

  class AttackDamageComponent {
    const hitbox: AttackHitbox?
    const attackData: AttackData
    var faction: Faction
    var factionOverridden: bool
    var currentAttackResult: AttackResult

    constructor (hitbox: AttackHitbox?, faction: Faction, attackData: AttackData)
      ensures this.hitbox == hitbox && this.faction == faction && this.attackData == attackData
      ensures !factionOverridden && currentAttackResult == NoAttack
    {
      this.hitbox := hitbox;
      this.faction := faction;
      this.attackData := attackData;
      factionOverridden := false;
      currentAttackResult := NoAttack;
    }

    /** _Ready: applies the exported faction unless a faction was already applied. */
    method Ready()
      modifies this, hitbox
      ensures hitbox == null ==> unchanged(this)
      ensures hitbox != null && old(factionOverridden) ==> unchanged(this, hitbox)
      ensures hitbox != null && !old(factionOverridden) ==>
        faction == old(faction) && factionOverridden &&
        hitbox.collisionLayer == AttackLayer(faction) && hitbox.collisionMask == TargetMask(faction) &&
        hitbox.attackResult == old(hitbox.attackResult) && currentAttackResult == old(currentAttackResult)
    {
      if hitbox == null {
        return;
      }
      if !factionOverridden {
        ApplyFaction(faction);
      }
    }

    /**
     * UpdateStats: takes the owner's faction, then recomputes the attack result from
     * the owner's stats and pushes it to the hitbox. The raw-damage formula it calls
     * is a parameter here.
     */
    method UpdateStats(owner: OwnerStats, calculateRawDamage: (EntityStats, AttackData) -> AttackResult)
      modifies this, hitbox
      ensures faction == owner.faction
      ensures currentAttackResult == calculateRawDamage(owner.stats, attackData)
      ensures hitbox != null ==>
        factionOverridden &&
        hitbox.collisionLayer == AttackLayer(owner.faction) && hitbox.collisionMask == TargetMask(owner.faction) &&
        hitbox.attackResult == currentAttackResult
      ensures hitbox == null ==> factionOverridden == old(factionOverridden)
    {
      ApplyFaction(owner.faction);
      currentAttackResult := calculateRawDamage(owner.stats, attackData);
      if hitbox != null {
        hitbox.attackResult := currentAttackResult;
      }
    }

    /** ApplyFaction: records the faction and, with a hitbox, sets its layer and mask. */
    method ApplyFaction(f: Faction)
      modifies this, hitbox
      ensures faction == f && currentAttackResult == old(currentAttackResult)
      ensures hitbox == null ==> factionOverridden == old(factionOverridden)
      ensures hitbox != null ==>
        factionOverridden &&
        hitbox.collisionLayer == AttackLayer(f) && hitbox.collisionMask == TargetMask(f) &&
        hitbox.attackResult == old(hitbox.attackResult)
    {
      faction := f;
      if hitbox == null {
        return;
      }
      hitbox.collisionLayer := AttackLayer(f);
      hitbox.collisionMask := TargetMask(f);
      factionOverridden := true;
    }
  }
}
