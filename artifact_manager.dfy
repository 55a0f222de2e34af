/**
 * Artifact ownership and equipment under a slot budget (Core/Artifacts/ArtifactManager.cs).
 * Artifacts are resources: loading a path twice gives the same resource, so an
 * artifact's identity is its value here. Resource loading is a lookup table from
 * path to artifact, given as a parameter; a path missing from it fails to load.
 */
module ArtifactManager {
  import opened Wrappers

  /** ArtifactData; SlotCost keeps its exported 1..3 range hint only as far as being non-negative. */
  datatype Artifact = Artifact(path: string, name: string, slotCost: nat, healthBonus: real, damageBonus: real)

  /** The sum of SlotCost over a list of artifacts. */
  function SlotTotal(xs: seq<Artifact>): (n: nat)
    ensures |xs| == 0 ==> n == 0
  {
    if |xs| == 0 then 0 else SlotTotal(xs[..|xs| - 1]) + xs[|xs| - 1].slotCost
  }

  /** A cost of zero or more per artifact makes every artifact's cost part of the total. */
  lemma {:induction false} SlotTotalCoversEach(xs: seq<Artifact>, i: nat)
    requires i < |xs|
    ensures xs[i].slotCost <= SlotTotal(xs)
    decreases |xs|
  {
    if i < |xs| - 1 {
      SlotTotalCoversEach(xs[..|xs| - 1], i);
    }
  }

  predicate NoDuplicates(xs: seq<Artifact>)
  {
    forall i, j :: 0 <= i < j < |xs| ==> xs[i] != xs[j]
  }

  /** List.Remove: the first occurrence goes, the rest keeps its order. */
  function RemoveFirst(xs: seq<Artifact>, a: Artifact): (r: seq<Artifact>)
    ensures a !in xs ==> r == xs
    ensures a in xs ==> |r| == |xs| - 1
    ensures multiset(r) == multiset(xs) - multiset{a}
    decreases |xs|
  {
    if |xs| == 0 then []
    else
      assert xs == [xs[0]] + xs[1..];
      if xs[0] == a then xs[1..] else [xs[0]] + RemoveFirst(xs[1..], a)
  }

  /** Removing one artifact takes exactly its cost off the total. */
  lemma {:induction false} SlotTotalAfterRemove(xs: seq<Artifact>, a: Artifact)
    requires a in xs
    ensures SlotTotal(RemoveFirst(xs, a)) + a.slotCost == SlotTotal(xs)
    decreases |xs|
  {
    if xs[0] == a {
      SlotTotalOfCons(a, xs[1..]);
      assert [a] + xs[1..] == xs;
    } else {
      SlotTotalAfterRemove(xs[1..], a);
      SlotTotalOfCons(xs[0], RemoveFirst(xs[1..], a));
      SlotTotalOfCons(xs[0], xs[1..]);
      assert [xs[0]] + xs[1..] == xs;
    }
  }

  /** The total seen from the front. */
  lemma {:induction false} SlotTotalOfCons(a: Artifact, xs: seq<Artifact>)
    ensures SlotTotal([a] + xs) == a.slotCost + SlotTotal(xs)
    decreases |xs|
  {
    if |xs| > 0 {
      var ys := [a] + xs;
      assert ys[..|ys| - 1] == [a] + xs[..|xs| - 1];
      SlotTotalOfCons(a, xs[..|xs| - 1]);
    }
  }

  /** The artifacts of the owned paths that load, in path order. */
  function LoadOwned(paths: seq<string>, library: map<string, Artifact>): (r: seq<Artifact>)
    ensures |r| <= |paths|
    ensures forall a :: a in r ==> exists p :: p in paths && p in library && library[p] == a
  {
    if |paths| == 0 then []
    else
      var last := paths[|paths| - 1];
      LoadOwned(paths[..|paths| - 1], library) + (if last in library then [library[last]] else [])
  }

  /** The artifacts of the equipped paths that load and are owned, in path order. */
  function LoadEquipped(paths: seq<string>, library: map<string, Artifact>, owned: seq<Artifact>): (r: seq<Artifact>)
    ensures forall a :: a in r ==> a in owned
  {
    if |paths| == 0 then []
    else
      var last := paths[|paths| - 1];
      LoadEquipped(paths[..|paths| - 1], library, owned) +
        (if last in library && library[last] in owned then [library[last]] else [])
  }

  /** GetOwnedPaths / GetEquippedPaths: the resource path of each artifact, in order. */
  function Paths(xs: seq<Artifact>): (r: seq<string>)
    ensures |r| == |xs|
    ensures forall i :: 0 <= i < |xs| ==> r[i] == xs[i].path
  {
    if |xs| == 0 then [] else Paths(xs[..|xs| - 1]) + [xs[|xs| - 1].path]
  }

  /** Every artifact is what its own path loads. */
  predicate Loadable(xs: seq<Artifact>, library: map<string, Artifact>)
  {
    forall a :: a in xs ==> a.path in library && library[a.path] == a
  }

  /** Saving the owned paths and loading them back gives the same owned list. */
  lemma {:induction false} OwnedRoundTrip(owned: seq<Artifact>, library: map<string, Artifact>)
    requires Loadable(owned, library)
    ensures LoadOwned(Paths(owned), library) == owned
    decreases |owned|
  {
    if |owned| > 0 {
      var init := owned[..|owned| - 1];
      assert Paths(owned)[..|owned| - 1] == Paths(init);
      OwnedRoundTrip(init, library);
      assert owned == init + [owned[|owned| - 1]];
    }
  }

  /** Saving the equipped paths and loading them back gives the same equipped list. */
  lemma {:induction false} EquippedRoundTrip(equipped: seq<Artifact>, library: map<string, Artifact>, owned: seq<Artifact>)
    requires Loadable(equipped, library)
    requires forall a :: a in equipped ==> a in owned
    ensures LoadEquipped(Paths(equipped), library, owned) == equipped
    decreases |equipped|
  {
    if |equipped| > 0 {
      var init := equipped[..|equipped| - 1];
      assert Paths(equipped)[..|equipped| - 1] == Paths(init);
      EquippedRoundTrip(init, library, owned);
      assert equipped == init + [equipped[|equipped| - 1]];
    }
  }

  /** Loading performs no duplicate check: a path saved twice is equipped twice. */
  lemma LoadKeepsDuplicates(a: Artifact)
    ensures LoadEquipped([a.path, a.path], map[a.path := a], [a]) == [a, a]
  {
    var library := map[a.path := a];
    assert [a.path, a.path][..1] == [a.path];
    assert [a.path][..0] == [];
    assert LoadEquipped([a.path], library, [a]) == [a];
  }

  class ArtifactManager {
    var equipped: seq<Artifact>
    var owned: seq<Artifact>
    var maxSlots: int

    /** A fresh manager: nothing owned or equipped, one slot. */
    constructor ()
      ensures equipped == [] && owned == [] && maxSlots == 1
    {
      equipped := [];
      owned := [];
      maxSlots := 1;
    }

    /** What Equip and Unequip keep: equipped artifacts are owned, distinct and within budget. */
    predicate Valid()
      reads this
    {
      (forall a :: a in equipped ==> a in owned) && NoDuplicates(equipped) && SlotTotal(equipped) <= maxSlots
    }

    function UsedSlots(): (n: nat)
      reads this
      ensures forall i :: 0 <= i < |equipped| ==> equipped[i].slotCost <= n
    {
      var n := SlotTotal(equipped);
      assert forall i :: 0 <= i < |equipped| ==> equipped[i].slotCost <= n by {
        forall i | 0 <= i < |equipped| {
          SlotTotalCoversEach(equipped, i);
        }
      }
      n
    }

    /** CanEquip: present, owned, not yet equipped, and its cost fits in the free slots. */
    predicate CanEquip(artifact: Option<Artifact>)
      reads this
    {
      artifact.Some? && artifact.value in owned && artifact.value !in equipped &&
      UsedSlots() + artifact.value.slotCost <= maxSlots
    }

    /**
     * Equip accepts any state, including one LoadFromPaths left over budget or
     * with duplicates; a valid state stays valid.
     */
    method Equip(artifact: Option<Artifact>) returns (ok: bool)
      modifies this
      ensures ok == old(CanEquip(artifact))
      ensures ok ==> equipped == old(equipped) + [artifact.value]
      ensures !ok ==> equipped == old(equipped)
      ensures owned == old(owned) && maxSlots == old(maxSlots)
      ensures old(Valid()) ==> Valid()
    {
      if !CanEquip(artifact) {
        return false;
      }
      SlotTotalOfLast(equipped, artifact.value);
      equipped := equipped + [artifact.value];
      return true;
    }

    /**
     * Unequip removes the first copy only: after a load that equipped an artifact
     * twice, the artifact stays equipped. A valid state stays valid.
     */
    method Unequip(artifact: Option<Artifact>) returns (ok: bool)
      modifies this
      ensures ok <==> artifact.Some? && artifact.value in old(equipped)
      ensures ok ==> equipped == RemoveFirst(old(equipped), artifact.value)
      ensures ok && old(NoDuplicates(equipped)) ==> artifact.value !in equipped
      ensures ok ==> SlotTotal(equipped) + artifact.value.slotCost == old(SlotTotal(equipped))
      ensures !ok ==> equipped == old(equipped)
      ensures owned == old(owned) && maxSlots == old(maxSlots)
      ensures old(Valid()) ==> Valid()
    {
      if artifact.None? || artifact.value !in equipped {
        return false;
      }
      var a := artifact.value;
      SlotTotalAfterRemove(equipped, a);
      if NoDuplicates(equipped) {
        RemoveKeepsDistinct(equipped, a);
      }
      forall b | b in RemoveFirst(equipped, a)
        ensures b in equipped
      {
        RemoveKeepsMembers(equipped, a, b);
      }
      equipped := RemoveFirst(equipped, a);
      return true;
    }

    /** AddOwned: a new, present artifact is appended; null or an owned one changes nothing. */
    method AddOwned(artifact: Option<Artifact>)
      modifies this
      ensures artifact.Some? && artifact.value !in old(owned) ==> owned == old(owned) + [artifact.value]
      ensures artifact.None? || artifact.value in old(owned) ==> owned == old(owned)
      ensures equipped == old(equipped) && maxSlots == old(maxSlots)
      ensures old(Valid()) ==> Valid()
    {
      if artifact.Some? && artifact.value !in owned {
        owned := owned + [artifact.value];
      }
    }

    /** GetOwnedPaths and GetEquippedPaths, for saving. */
    function OwnedPaths(): (r: seq<string>)
      reads this
      ensures |r| == |owned| && forall i :: 0 <= i < |owned| ==> r[i] == owned[i].path
    {
      Paths(owned)
    }

    function EquippedPaths(): (r: seq<string>)
      reads this
      ensures |r| == |equipped| && forall i :: 0 <= i < |equipped| ==> r[i] == equipped[i].path
    {
      Paths(equipped)
    }

    /**
     * LoadFromPaths: both lists are cleared; every owned path that loads is owned,
     * then every equipped path that loads and is owned is equipped. Neither the
     * budget nor duplicates are checked.
     */
    method LoadFromPaths(ownedPaths: seq<string>, equippedPaths: seq<string>, library: map<string, Artifact>)
      modifies this
      ensures owned == LoadOwned(ownedPaths, library)
      ensures equipped == LoadEquipped(equippedPaths, library, owned)
      ensures maxSlots == old(maxSlots)
    {
      owned := [];
      equipped := [];
      var i := 0;
      while i < |ownedPaths|
        invariant 0 <= i <= |ownedPaths|
        invariant owned == LoadOwned(ownedPaths[..i], library)
        invariant equipped == [] && maxSlots == old(maxSlots)
      {
        assert ownedPaths[..i + 1][..i] == ownedPaths[..i];
        var path := ownedPaths[i];
        if path in library {
          owned := owned + [library[path]];
        }
        i := i + 1;
      }
      assert ownedPaths[..i] == ownedPaths;
      var j := 0;
      while j < |equippedPaths|
        invariant 0 <= j <= |equippedPaths|
        invariant owned == LoadOwned(ownedPaths, library) && maxSlots == old(maxSlots)
        invariant equipped == LoadEquipped(equippedPaths[..j], library, owned)
      {
        assert equippedPaths[..j + 1][..j] == equippedPaths[..j];
        var path := equippedPaths[j];
        if path in library && library[path] in owned {
          equipped := equipped + [library[path]];
        }
        j := j + 1;
      }
      assert equippedPaths[..j] == equippedPaths;
    }
  }

  /** Appending one artifact adds its cost. */
  lemma SlotTotalOfLast(xs: seq<Artifact>, a: Artifact)
    ensures SlotTotal(xs + [a]) == SlotTotal(xs) + a.slotCost
  {
    assert (xs + [a])[..|xs|] == xs;
  }

  /** Removing an artifact keeps only artifacts that were there. */
  lemma RemoveKeepsMembers(xs: seq<Artifact>, a: Artifact, b: Artifact)
    requires b in RemoveFirst(xs, a)
    ensures b in xs
  {
    assert b in multiset(RemoveFirst(xs, a));
  }

  /** A distinct list splits into a head that is not in its distinct tail. */
  lemma HeadAndTailDistinct(xs: seq<Artifact>)
    requires |xs| > 0 && NoDuplicates(xs)
    ensures NoDuplicates(xs[1..]) && xs[0] !in xs[1..]
  {
    var rest := xs[1..];
    forall i, j | 0 <= i < j < |rest|
      ensures rest[i] != rest[j]
    {
      assert rest[i] == xs[i + 1] && rest[j] == xs[j + 1];
    }
    forall k | 0 <= k < |rest|
      ensures rest[k] != xs[0]
    {
      assert rest[k] == xs[k + 1];
    }
  }

  /** An artifact not in a distinct list can head it. */
  lemma ConsDistinct(x: Artifact, tail: seq<Artifact>)
    requires NoDuplicates(tail) && x !in tail
    ensures NoDuplicates([x] + tail)
  {
    var r := [x] + tail;
    forall i, j | 0 <= i < j < |r|
      ensures r[i] != r[j]
    {
      assert r[j] == tail[j - 1];
      if i > 0 {
        assert r[i] == tail[i - 1];
      }
    }
  }

  /** Removing an artifact keeps a distinct list distinct and leaves it without that artifact. */
  lemma {:induction false} RemoveKeepsDistinct(xs: seq<Artifact>, a: Artifact)
    requires NoDuplicates(xs)
    ensures NoDuplicates(RemoveFirst(xs, a)) && a !in RemoveFirst(xs, a)
    decreases |xs|
  {
    if |xs| > 0 {
      HeadAndTailDistinct(xs);
      if xs[0] != a {
        var tail := RemoveFirst(xs[1..], a);
        RemoveKeepsDistinct(xs[1..], a);
        if xs[0] in tail {
          RemoveKeepsMembers(xs[1..], a, xs[0]);
        }
        ConsDistinct(xs[0], tail);
      }
    }
  }

  /** A one-slot manager equips a one-slot artifact and refuses a second one. */
  method SlotBudgetIsEnforced() returns (first: bool, second: bool, used: nat)
    ensures first && !second && used == 1
  {
    var manager := new ArtifactManager();
    var ring := Artifact("ring", "Ring", 1, 10.0, 0.0);
    var charm := Artifact("charm", "Charm", 1, 0.0, 0.1);
    manager.AddOwned(Some(ring));
    manager.AddOwned(Some(charm));
    first := manager.Equip(Some(ring));
    assert manager.equipped == [ring];
    assert [ring][..0] == [];
    used := manager.UsedSlots();
    second := manager.Equip(Some(charm));
  }

  /** Unequipping the only artifact frees its slot for another. */
  method UnequipFreesTheSlot() returns (removed: bool, afterUnequip: bool, used: nat)
    ensures removed && afterUnequip && used == 1
  {
    var manager := new ArtifactManager();
    var ring := Artifact("ring", "Ring", 1, 10.0, 0.0);
    var charm := Artifact("charm", "Charm", 1, 0.0, 0.1);
    manager.AddOwned(Some(ring));
    manager.AddOwned(Some(charm));
    var first := manager.Equip(Some(ring));
    assert manager.equipped == [ring];
    removed := manager.Unequip(Some(ring));
    assert |manager.equipped| == 0;
    afterUnequip := manager.Equip(Some(charm));
    assert manager.equipped == [charm];
    assert [charm][..0] == [];
    used := manager.UsedSlots();
  }
  /** After a load equips an artifact twice, Unequip drops one copy and the artifact stays equipped. */
  method UnequipAfterDuplicateLoad() returns (removed: bool, stillEquipped: bool, equippedAgain: bool)
    ensures removed && stillEquipped && !equippedAgain
  {
    var manager := new ArtifactManager();
    var ring := Artifact("ring", "Ring", 1, 10.0, 0.0);
    var library := map[ring.path := ring];
    LoadKeepsDuplicates(ring);
    assert LoadOwned([ring.path], library) == [ring] by {
      assert [ring.path][..0] == [];
    }
    manager.LoadFromPaths([ring.path], [ring.path, ring.path], library);
    assert manager.equipped == [ring, ring];
    removed := manager.Unequip(Some(ring));
    assert manager.equipped == [ring];
    stillEquipped := ring in manager.equipped;
    equippedAgain := manager.Equip(Some(ring));
  }
}
