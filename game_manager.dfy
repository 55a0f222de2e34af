/**
 * The meta-progression autoload (Autoload/GameManager.cs): permanent money, saved
 * after every change. The save manager and the scene manager are not part of this
 * model: what the save manager loads is a parameter, and saves and menu changes are
 * recorded in order.
 */
module GameManager {
  import opened Wrappers

  /** MetaData: its defaults are version 1 and no money. */
  datatype MetaData = MetaData(version: int, money: int)

  const FreshMeta: MetaData := MetaData(1, 0)

  datatype MenuScene = Start

  /** LoadMeta: what was saved, or fresh data when nothing was. */
  function LoadedMeta(saved: Option<MetaData>): (m: MetaData)
    ensures saved.Some? ==> m == saved.value
    ensures saved.None? ==> m.version == 1 && m.money == 0
  {
    saved.GetOr(FreshMeta)
  }

  class GameManager {
    var meta: MetaData
    /** SaveMeta calls, with what each saved. */
    var saves: seq<MetaData>
    var menuRequests: seq<MenuScene>

    /** _Ready: Meta is loaded, never left null. */
    constructor (saved: Option<MetaData>)
      ensures meta == LoadedMeta(saved) && saves == [] && menuRequests == []
    {
      meta := saved.GetOr(FreshMeta);
      saves := [];
      menuRequests := [];
    }

    /** PlayerDied: back to the start menu; money is kept, whatever the log line says. */
    method PlayerDied()
      modifies this
      ensures menuRequests == old(menuRequests) + [Start]
      ensures meta == old(meta) && saves == old(saves)
    {
      menuRequests := menuRequests + [Start];
    }

    /** AddMoney: ignored for a non-positive amount; otherwise money grows and is saved. */
    method AddMoney(amount: int)
      modifies this
      ensures amount <= 0 ==> meta == old(meta) && saves == old(saves)
      ensures amount > 0 ==> meta == old(meta).(money := old(meta).money + amount) && saves == old(saves) + [meta]
      ensures menuRequests == old(menuRequests)
    {
      if amount <= 0 {
        return;
      }
      meta := meta.(money := meta.money + amount);
      saves := saves + [meta];
    }

    /** SpendMoney: refused for a non-positive amount or more than there is. */
    method SpendMoney(amount: int) returns (ok: bool)
      modifies this
      ensures ok <==> amount > 0 && old(meta).money >= amount
      ensures !ok ==> meta == old(meta) && saves == old(saves)
      ensures ok ==> meta == old(meta).(money := old(meta).money - amount) && saves == old(saves) + [meta]
      ensures old(meta).money >= 0 ==> meta.money >= 0
      ensures menuRequests == old(menuRequests)
    {
      if amount <= 0 || meta.money < amount {
        return false;
      }
      meta := meta.(money := meta.money - amount);
      saves := saves + [meta];
      return true;
    }
  }

  /**
   * With nothing saved, 50 money is added, 80 is refused, 30 is spent and the player
   * dies: 20 money is left, and exactly the two accepted changes were saved.
   */
  method MoneySurvivesDeath() returns (money: int, saved: seq<MetaData>, refused: bool)
    ensures money == 20 && refused
    ensures saved == [MetaData(1, 50), MetaData(1, 20)]
  {
    var manager := new GameManager(None);
    manager.AddMoney(50);
    var tooMuch := manager.SpendMoney(80);
    refused := !tooMuch;
    var spent := manager.SpendMoney(30);
    manager.PlayerDied();
    money := manager.meta.money;
    saved := manager.saves;
  }
}
