/** Scene identifiers and their resource paths (Core/SceneExtensionManager.cs). */
module SceneExtensionManager {

  datatype EntityScene = Player
  datatype GameScene = TowerLevel0
  datatype MenuScene = Start
  datatype TowerLevel = Level0 | Level1 | Level2 | Level3 | Level4 | Level5

  const MenuPaths: map<MenuScene, string> := map[Start := "res://Scenes/Menus/StartMenu/StartMenu.tscn"]
  const ScenePaths: map<GameScene, string> := map[TowerLevel0 := "res://Scenes/Levels/Tower/Level0/Level.tscn"]
  const TowerLevelScenes: map<TowerLevel, GameScene> := map[Level0 := TowerLevel0]
  const EntityPaths: map<EntityScene, string> := map[Player := "res://Scenes/Player/Player.tscn"]

  /** TowerLevelToGameScene: the mapped scene, or TowerLevel0 for a level without one. */
  function TowerLevelToGameScene(level: TowerLevel): (scene: GameScene)
    ensures level in TowerLevelScenes ==> scene == TowerLevelScenes[level]
    ensures level !in TowerLevelScenes ==> scene == TowerLevel0
  {
    if level in TowerLevelScenes then TowerLevelScenes[level] else TowerLevel0
  }

  /** Every level leads to a scene that has a path, so loading a level never misses. */
  lemma EveryLevelHasAScenePath(level: TowerLevel)
    ensures TowerLevelToGameScene(level) in ScenePaths
  {
  }

  /** Only Level0 is mapped; every other level falls back to the same scene. */
  lemma UnmappedLevelsFallBack()
    ensures TowerLevelScenes.Keys == {Level0}
    ensures forall level :: TowerLevelToGameScene(level) == TowerLevelToGameScene(Level0)
  {
  }

  /** The menu table holds exactly the start menu. */
  lemma OnlyTheStartMenu()
    ensures MenuPaths.Keys == {Start}
  {
  }
}
