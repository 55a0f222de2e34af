/** Physics layer bits and factions (Core/GameConstants.cs). */
module GameConstants {
  type Layers = bv32

  const NoLayers: Layers := 0
  const World: Layers := 1
  const Player: Layers := 2
  const Enemies: Layers := 4
  const Collectibles: Layers := 8
  const Interactables: Layers := 16
  const PlayerDamageBox: Layers := 32
  const EnemyDamageBox: Layers := 64
  const PlayerAttack: Layers := 128
  const EnemyAttack: Layers := 256
  const Projectile: Layers := 512

  datatype Faction = PlayerFaction | AllyFaction | EnemyFaction
}
