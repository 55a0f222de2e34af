/**
 * Keyed attacks with per-key cooldowns (Core/Combat/Components/AttackManagerComponent.cs).
 * A fired attack is a new scene instance; the manager relays its cast and finish
 * events under the key it was fired with.
 */
module AttackManagerComponent {
  import opened Wrappers
  import opened CombatTypes
  import opened Vectors
  import Numerics

  /** A StringName key. */
  type Key = string

  /** A spawned attack instance, by identity. */
  type InstanceId = nat

  /**
   * A PackedScene as the manager sees it: whether its root implements IAttack, and
   * the metadata an instance of it reports.
   */
  datatype AttackScene = AttackScene(
    path: string,
    implementsAttack: bool,
    cooldown: real,
    isInstantCast: bool,
    allowMovementDuringCast: bool)

  /** AttackSlotEntry. */
  datatype Entry = Entry(
    scene: AttackScene,
    cooldown: real,
    cooldownRemaining: real,
    isInstantCast: bool,
    allowMovementDuringCast: bool)

  datatype ManagerSignal = CastStarted(key: Key) | CastCompleted(key: Key) | AttackFinished(key: Key)

  /** What happens to scene instances. */
  datatype SceneEffect =
    | TempInstanceFreed(path: string)
    | Executed(instance: InstanceId, direction: Vec2, position: Vec2, stats: Option<EntityStats>)
    | AddedToCurrentScene(instance: InstanceId)
    | InstanceFreed(path: string)

  /** One _Process step for one entry: a running cooldown loses delta, with no floor. */
  function TickEntry(e: Entry, delta: real): Entry
  {
    if e.cooldownRemaining > 0.0 then e.(cooldownRemaining := e.cooldownRemaining - delta) else e
  }

  /** _Process over the whole table. */
  function TickEntries(attacks: map<Key, Entry>, delta: real): (r: map<Key, Entry>)
    ensures r.Keys == attacks.Keys
    ensures forall k :: k in r ==> r[k] == TickEntry(attacks[k], delta)
  {
    map k | k in attacks :: TickEntry(attacks[k], delta)
  }

  /** TickEntry over a run of frames. */
  function TickEntryAll(e: Entry, deltas: seq<real>): Entry
    decreases |deltas|
  {
    if |deltas| == 0 then e else TickEntryAll(TickEntry(e, deltas[0]), deltas[1..])
  }

  /** Ticks never change what the entry is, only how much cooldown is left. */
  lemma {:induction false} TicksKeepConfiguration(e: Entry, deltas: seq<real>)
    ensures TickEntryAll(e, deltas) == e.(cooldownRemaining := TickEntryAll(e, deltas).cooldownRemaining)
    decreases |deltas|
  {
    if |deltas| > 0 {
      TicksKeepConfiguration(TickEntry(e, deltas[0]), deltas[1..]);
    }
  }

  /**
   * With non-negative frame deltas, an entry on cooldown comes off it exactly when the
   * frames add up to the time it had left.
   */
  lemma {:induction false} OffCooldownAfterItsTime(e: Entry, deltas: seq<real>)
    requires Numerics.AllNonNegative(deltas)
    requires e.cooldownRemaining > 0.0
    ensures TickEntryAll(e, deltas).cooldownRemaining <= 0.0 <==> Numerics.Sum(deltas) >= e.cooldownRemaining
    decreases |deltas|
  {
    if |deltas| > 0 {
      var next := TickEntry(e, deltas[0]);
      Numerics.SumNonNegative(deltas[1..]);
      if next.cooldownRemaining > 0.0 {
        OffCooldownAfterItsTime(next, deltas[1..]);
      } else {
        StaysOffCooldown(next, deltas[1..]);
      }
    }
  }

  /** An entry off cooldown is left alone by later frames. */
  lemma {:induction false} StaysOffCooldown(e: Entry, deltas: seq<real>)
    requires e.cooldownRemaining <= 0.0
    ensures TickEntryAll(e, deltas) == e
  {
    if |deltas| > 0 {
      StaysOffCooldown(e, deltas[1..]);
    }
  }

  class AttackManagerComponent {
    var attacks: map<Key, Entry>
    var signals: seq<ManagerSignal>
    var effects: seq<SceneEffect>
    /** Instances whose CastCompleted is relayed, and under which key. */
    var castRelays: map<InstanceId, Key>
    /** Instances whose AttackFinished is relayed, and under which key. */
    var finishRelays: map<InstanceId, Key>
    var nextInstance: InstanceId

    constructor ()
      ensures attacks == map[] && signals == [] && effects == []
      ensures castRelays == map[] && finishRelays == map[]
    {
      attacks := map[];
      signals := [];
      effects := [];
      castRelays := map[];
      finishRelays := map[];
      nextInstance := 0;
    }

    /**
     * RegisterAttack: a taken key is left as it is; a scene whose root is not an
     * attack registers nothing; otherwise the key gets an entry off cooldown with the
     * instance's metadata. The temporary instance is freed either way.
     */
    method RegisterAttack(key: Key, scene: AttackScene)
      modifies this
      ensures key in old(attacks) ==> unchanged(this)
      ensures key !in old(attacks) && !scene.implementsAttack ==>
        attacks == old(attacks) && effects == old(effects) + [TempInstanceFreed(scene.path)]
      ensures key !in old(attacks) && scene.implementsAttack ==>
        attacks == old(attacks)[key := Entry(scene, scene.cooldown, 0.0, scene.isInstantCast, scene.allowMovementDuringCast)] &&
        effects == old(effects) + [TempInstanceFreed(scene.path)]
      ensures signals == old(signals) && castRelays == old(castRelays) && finishRelays == old(finishRelays)
      ensures nextInstance == old(nextInstance)
    {
      if key in attacks {
        return;
      }
      if !scene.implementsAttack {
        effects := effects + [TempInstanceFreed(scene.path)];
        return;
      }
      var entry := Entry(scene, scene.cooldown, 0.0, scene.isInstantCast, scene.allowMovementDuringCast);
      attacks := attacks[key := entry];
      effects := effects + [TempInstanceFreed(scene.path)];
    }

    method UnregisterAttack(key: Key)
      modifies this
      ensures attacks == old(attacks) - {key}
      ensures signals == old(signals) && effects == old(effects)
      ensures castRelays == old(castRelays) && finishRelays == old(finishRelays) && nextInstance == old(nextInstance)
    {
      attacks := attacks - {key};
    }

    /**
     * TryFire: an unknown key or a key on cooldown gives null and changes nothing.
     * Otherwise a new instance is executed and added to the scene, the key's cooldown
     * restarts and CastStarted is emitted; an instant attack emits CastCompleted at
     * once, a cast attack relays its own later. Other keys are not consulted.
     */
    method TryFire(key: Key, direction: Vec2, position: Vec2, stats: Option<EntityStats>) returns (attack: Option<InstanceId>)
      modifies this
      ensures key !in old(attacks) || old(attacks)[key].cooldownRemaining > 0.0 ==> attack.None? && unchanged(this)
      ensures key in old(attacks) && old(attacks)[key].cooldownRemaining <= 0.0 && !old(attacks)[key].scene.implementsAttack ==>
        attack.None? && attacks == old(attacks) && signals == old(signals) && nextInstance == old(nextInstance) &&
        effects == old(effects) + [InstanceFreed(old(attacks)[key].scene.path)] &&
        castRelays == old(castRelays) && finishRelays == old(finishRelays)
      ensures key in old(attacks) && old(attacks)[key].cooldownRemaining <= 0.0 && old(attacks)[key].scene.implementsAttack ==>
        var entry := old(attacks)[key];
        var id := old(nextInstance);
        attack == Some(id) && nextInstance == id + 1 &&
        attacks == old(attacks)[key := entry.(cooldownRemaining := entry.cooldown)] &&
        effects == old(effects) + [Executed(id, direction, position, stats), AddedToCurrentScene(id)] &&
        signals == old(signals) + [CastStarted(key)] + (if entry.scene.isInstantCast then [CastCompleted(key)] else []) &&
        castRelays == (if entry.scene.isInstantCast then old(castRelays) else old(castRelays)[id := key]) &&
        finishRelays == old(finishRelays)[id := key]
    {
      if key !in attacks {
        return None;
      }
      var entry := attacks[key];
      if entry.cooldownRemaining > 0.0 {
        return None;
      }
      if !entry.scene.implementsAttack {
        effects := effects + [InstanceFreed(entry.scene.path)];
        return None;
      }
      var id := nextInstance;
      nextInstance := nextInstance + 1;
      effects := effects + [Executed(id, direction, position, stats), AddedToCurrentScene(id)];
      attacks := attacks[key := entry.(cooldownRemaining := entry.cooldown)];
      signals := signals + [CastStarted(key)];
      if entry.scene.isInstantCast {
        signals := signals + [CastCompleted(key)];
      } else {
        castRelays := castRelays[id := key];
      }
      finishRelays := finishRelays[id := key];
      attack := Some(id);
    }

    /** The relay of a fired instance's CastCompleted event. */
    method OnInstanceCastCompleted(instance: InstanceId)
      modifies this
      ensures signals == old(signals) + (if instance in castRelays then [CastCompleted(castRelays[instance])] else [])
      ensures attacks == old(attacks) && effects == old(effects)
      ensures castRelays == old(castRelays) && finishRelays == old(finishRelays) && nextInstance == old(nextInstance)
    {
      if instance in castRelays {
        signals := signals + [CastCompleted(castRelays[instance])];
      }
    }

    /** The relay of a fired instance's AttackFinished event. */
    method OnInstanceFinished(instance: InstanceId)
      modifies this
      ensures signals == old(signals) + (if instance in finishRelays then [AttackFinished(finishRelays[instance])] else [])
      ensures attacks == old(attacks) && effects == old(effects)
      ensures castRelays == old(castRelays) && finishRelays == old(finishRelays) && nextInstance == old(nextInstance)
    {
      if instance in finishRelays {
        signals := signals + [AttackFinished(finishRelays[instance])];
      }
    }

    predicate IsOnCooldown(key: Key)
      reads this
    {
      key in attacks && attacks[key].cooldownRemaining > 0.0
    }

    /**
     * GetCooldownProgress: in [0, 1]; 0 for an unknown key or a key without cooldown,
     * and otherwise 0 exactly when the key is off cooldown.
     */
    function GetCooldownProgress(key: Key): (p: real)
      reads this
      ensures 0.0 <= p <= 1.0
      ensures key !in attacks || attacks[key].cooldown <= 0.0 ==> p == 0.0
      ensures key in attacks && attacks[key].cooldown > 0.0 ==> (p == 0.0 <==> !IsOnCooldown(key))
    {
      if key !in attacks || attacks[key].cooldown <= 0.0 then 0.0
      else Numerics.Clamp(attacks[key].cooldownRemaining / attacks[key].cooldown, 0.0, 1.0)
    }

    /** GetAttackMetadata: the entry, or null (None) for an unknown key. */
    function GetAttackMetadata(key: Key): (e: Option<Entry>)
      reads this
      ensures e.Some? <==> key in attacks
      ensures e.Some? ==> e.value == attacks[key]
    {
      if key in attacks then Some(attacks[key]) else None
    }

    /** _Process: every running cooldown loses delta. */
    method Process(delta: real)
      modifies this
      ensures attacks == TickEntries(old(attacks), delta)
      ensures signals == old(signals) && effects == old(effects)
      ensures castRelays == old(castRelays) && finishRelays == old(finishRelays) && nextInstance == old(nextInstance)
    {
      var start := attacks;
      var pending := attacks.Keys;
      while pending != {}
        invariant pending <= start.Keys
        invariant attacks.Keys == start.Keys
        invariant forall k :: k in pending ==> attacks[k] == start[k]
        invariant forall k :: k in start && k !in pending ==> attacks[k] == TickEntry(start[k], delta)
        invariant signals == old(signals) && effects == old(effects)
        invariant castRelays == old(castRelays) && finishRelays == old(finishRelays) && nextInstance == old(nextInstance)
        decreases pending
      {
        var key :| key in pending;
        var entry := attacks[key];
        if entry.cooldownRemaining > 0.0 {
          attacks := attacks[key := entry.(cooldownRemaining := entry.cooldownRemaining - delta)];
        }
        pending := pending - {key};
      }
    }
  }

  /**
   * Nothing locks one key while another casts: two non-instant attacks under
   * different keys both fire, one straight after the other.
   */
  method TwoCastsMayOverlap() returns (first: Option<InstanceId>, second: Option<InstanceId>, castSignals: seq<ManagerSignal>)
    ensures first.Some? && second.Some? && first != second
    ensures castSignals == [CastStarted("fireball"), CastStarted("ice_shard")]
  {
    var manager := new AttackManagerComponent();
    manager.RegisterAttack("fireball", AttackScene("res://fireball.tscn", true, 1.0, false, false));
    manager.RegisterAttack("ice_shard", AttackScene("res://ice_shard.tscn", true, 2.0, false, true));
    first := manager.TryFire("fireball", Zero, Zero, None);
    second := manager.TryFire("ice_shard", Zero, Zero, None);
    castSignals := manager.signals;
  }

  /** A key that just fired is refused until its cooldown runs out. */
  method RefiringIsRefused() returns (first: Option<InstanceId>, second: Option<InstanceId>, onCooldown: bool)
    ensures first.Some? && second.None? && onCooldown
  {
    var manager := new AttackManagerComponent();
    manager.RegisterAttack("fireball", AttackScene("res://fireball.tscn", true, 1.0, true, true));
    first := manager.TryFire("fireball", Zero, Zero, None);
    second := manager.TryFire("fireball", Zero, Zero, None);
    onCooldown := manager.IsOnCooldown("fireball");
  }
}
