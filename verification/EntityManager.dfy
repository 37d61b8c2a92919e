/** The manager that adds entities as records appear, over runs in which counts rise and fall and
    adds may fail. */
module EntityManager {
  import opened Wrappers
  import opened Text
  import opened Sequences
  import opened PathKeys
  import opened EntityPlans
  import opened EntityWalk

  /** The unique key under which a binding is exposed. A fixed indexed scalar of the main device
      drops the key that the planner derived from its path. */
  function LiveKey(b: Binding): string {
    if b.device != "main" then b.device + "_" + b.key
    else if b.repeatedKey.None? || DerivedFromPath(b) then b.key
    else b.repeatedKey.value + "_" + b.key
  }

  predicate DerivedFromPath(b: Binding)
    requires b.repeatedKey.Some?
  {
    && b.path.Some? && b.path.value != []
    && var path := b.path.value;
       var last := path[|path| - 1];
       last.Index? && b.repeatedKey.value == PathKey(path[..|path| - 1]) + "_" + Decimal(last.index)
  }

  /** The keys of the bindings of one platform, in plan order. */
  function PlanKeys(bs: seq<Binding>, platform: Platform): seq<string> {
    if bs == [] then []
    else if bs[0].platform == platform then [LiveKey(bs[0])] + PlanKeys(bs[1..], platform)
    else PlanKeys(bs[1..], platform)
  }

  function NewKeys(keys: seq<string>, known: set<string>): seq<string> {
    if keys == [] then []
    else if keys[0] in known then NewKeys(keys[1..], known)
    else [keys[0]] + NewKeys(keys[1..], known)
  }

  function SetOf(keys: seq<string>): set<string> {
    set k | k in keys
  }

  /** One call of `sync`: the coordinator's data, and whether Home Assistant takes the entities. */
  datatype Sync = Sync(data: Option<DataRecord>, taken: bool)

  datatype Manager = Manager(known: set<string>, handed: seq<string>)

  /** The keys of the plan a call works from; none without data or where planning raises. */
  function KeysOf(s: Sync, derived: seq<Spec>, platform: Platform): seq<string> {
    match s.data
    case None => []
    case Some(d) =>
      match BuildPlan(d, derived, map[])
      case None => []
      case Some(plan) => PlanKeys(plan.entities, platform)
  }

  function After(m: Manager, s: Sync, derived: seq<Spec>, platform: Platform): Manager {
    var newKeys := NewKeys(KeysOf(s, derived, platform), m.known);
    if s.taken then Manager(m.known + SetOf(newKeys), m.handed + newKeys) else m
  }

  function AfterAll(syncs: seq<Sync>, derived: seq<Spec>, platform: Platform): Manager {
    if syncs == [] then Manager({}, [])
    else After(AfterAll(syncs[..|syncs| - 1], derived, platform), syncs[|syncs| - 1], derived, platform)
  }

  // ----- the code -----

  class ProductEntityManager {
    const platform: Platform
    const derived: seq<Spec>
    var knownKeys: set<string>
    ghost var handed: seq<string>

    constructor (platform: Platform, derived: seq<Spec>)
      ensures this.platform == platform && this.derived == derived && knownKeys == {} && handed == []
    {
      this.platform, this.derived, knownKeys, handed := platform, derived, {}, [];
    }

    /** The loop of `sync`: the keys of this platform that are not known yet. */
    method Unknown(bs: seq<Binding>) returns (newKeys: seq<string>)
      ensures newKeys == NewKeys(PlanKeys(bs, platform), knownKeys)
    {
      hide LiveKey, PlanKeys;
      newKeys := [];
      for i := 0 to |bs|
        invariant newKeys + NewKeys(PlanKeys(bs[i..], platform), knownKeys) ==
          NewKeys(PlanKeys(bs, platform), knownKeys)
      {
        assert bs[i..][0] == bs[i] && bs[i..][1..] == bs[i + 1..];
        PlanKeysStep(bs[i..], platform, knownKeys);
        if bs[i].platform == platform && LiveKey(bs[i]) !in knownKeys {
          newKeys := newKeys + [LiveKey(bs[i])];
        }
      }
      assert bs[|bs|..] == [];
      PlanKeysStep([], platform, knownKeys);
    }

    /** `sync`; handed is what Home Assistant has taken so far. */
    method Synchronise(s: Sync)
      modifies this
      ensures Manager(knownKeys, handed) == After(Manager(old(knownKeys), old(handed)), s, derived, platform)
    {
      hide BuildPlan, PlanKeys, NewKeys;
      NothingNew(knownKeys);
      if s.data.None? {
        return;
      }
      var plan := BuildEntityPlan(s.data.value, derived, map[]);
      if plan.None? {
        return;
      }
      var newKeys := Unknown(plan.value.entities);
      if newKeys != [] && s.taken {
        knownKeys := knownKeys + set k | k in newKeys;
        handed := handed + newKeys;
      }
    }
  }

  lemma NothingNew(known: set<string>)
    ensures NewKeys([], known) == [] && SetOf([]) == {} && known + {} == known
  {
  }

  lemma PlanKeysStep(bs: seq<Binding>, platform: Platform, known: set<string>)
    ensures NewKeys(PlanKeys(bs, platform), known) ==
      if bs == [] then []
      else if bs[0].platform == platform && LiveKey(bs[0]) !in known
      then [LiveKey(bs[0])] + NewKeys(PlanKeys(bs[1..], platform), known)
      else NewKeys(PlanKeys(bs[1..], platform), known)
  {
    hide LiveKey;
    if bs != [] && bs[0].platform == platform {
      assert PlanKeys(bs, platform)[1..] == PlanKeys(bs[1..], platform);
    }
  }

  // ----- runs -----

  lemma {:induction false} NewKeysExact(keys: seq<string>, known: set<string>, k: string)
    ensures k in NewKeys(keys, known) <==> k in keys && k !in known
  {
    if keys == [] {
    } else {
      NewKeysExact(keys[1..], known, k);
    }
  }

  lemma {:induction false} NewKeysKeepUnique(keys: seq<string>, known: set<string>)
    requires NoRepeat(keys)
    ensures NoRepeat(NewKeys(keys, known))
  {
    if keys == [] {
    } else {
      NoRepeatJoin([keys[0]], keys[1..]);
      assert [keys[0]] + keys[1..] == keys;
      NewKeysKeepUnique(keys[1..], known);
      NewKeysExact(keys[1..], known, keys[0]);
      NoRepeatJoin([keys[0]], NewKeys(keys[1..], known));
    }
  }

  /** A key is known iff some call whose entities were taken planned it, and the keys handed over
      are exactly the known ones. */
  lemma {:induction false} KnownExact(syncs: seq<Sync>, derived: seq<Spec>, platform: Platform, k: string)
    ensures k in AfterAll(syncs, derived, platform).known <==>
      exists i :: 0 <= i < |syncs| && syncs[i].taken && k in KeysOf(syncs[i], derived, platform)
    ensures k in AfterAll(syncs, derived, platform).known <==> k in AfterAll(syncs, derived, platform).handed
  {
    hide KeysOf, NewKeys;
    var n := |syncs|;
    if n == 0 {
    } else {
      var init, last := syncs[..n - 1], syncs[n - 1];
      KnownExact(init, derived, platform, k);
      NewKeysExact(KeysOf(last, derived, platform), AfterAll(init, derived, platform).known, k);
      assert forall i | 0 <= i < n - 1 :: init[i] == syncs[i];
    }
  }

  /** The new keys of a call, given the calls before it. */
  function NewAt(syncs: seq<Sync>, derived: seq<Spec>, platform: Platform, i: nat): seq<string>
    requires i < |syncs|
  {
    NewKeys(KeysOf(syncs[i], derived, platform), AfterAll(syncs[..i], derived, platform).known)
  }

  /** No key is handed over twice iff no taken call planned a key twice that was new to it. */
  lemma {:induction false} HandedOnceIff(syncs: seq<Sync>, derived: seq<Spec>, platform: Platform)
    ensures NoRepeat(AfterAll(syncs, derived, platform).handed) <==>
      forall i | 0 <= i < |syncs| && syncs[i].taken :: NoRepeat(NewAt(syncs, derived, platform, i))
  {
    hide KeysOf, NewKeys, NoRepeat, NewAt, SetOf;
    var n := |syncs|;
    if n == 0 {
      NothingRepeats<string>();
    } else {
      var init := syncs[..n - 1];
      HandedOnceIff(init, derived, platform);
      HandedStep(syncs, derived, platform);
      forall i | 0 <= i < n - 1
        ensures NewAt(init, derived, platform, i) == NewAt(syncs, derived, platform, i) && init[i] == syncs[i]
      {
        NewAtPrefix(syncs, derived, platform, i);
      }
    }
  }

  lemma NewAtPrefix(syncs: seq<Sync>, derived: seq<Spec>, platform: Platform, i: nat)
    requires i < |syncs| - 1
    ensures NewAt(syncs[..|syncs| - 1], derived, platform, i) == NewAt(syncs, derived, platform, i)
  {
    assert syncs[..|syncs| - 1][..i] == syncs[..i];
  }

  lemma HandedStep(syncs: seq<Sync>, derived: seq<Spec>, platform: Platform)
    requires syncs != []
    ensures var n := |syncs|;
      NoRepeat(AfterAll(syncs, derived, platform).handed) <==>
        NoRepeat(AfterAll(syncs[..n - 1], derived, platform).handed)
        && (syncs[n - 1].taken ==> NoRepeat(NewAt(syncs, derived, platform, n - 1)))
  {
    hide KeysOf, NewKeys, NoRepeat, SetOf;
    var n := |syncs|;
    var init, last := syncs[..n - 1], syncs[n - 1];
    var before := AfterAll(init, derived, platform);
    var added := NewAt(syncs, derived, platform, n - 1);
    forall k | k in before.handed ensures k !in added {
      KnownExact(init, derived, platform, k);
      NewKeysExact(KeysOf(last, derived, platform), before.known, k);
    }
    NoRepeatJoin(before.handed, added);
  }

  lemma NothingRepeats<T(!new)>()
    ensures NoRepeat<T>([])
  {
  }

  /** When every taken plan is key-unique, no key is handed over twice. */
  lemma HandedOnce(syncs: seq<Sync>, derived: seq<Spec>, platform: Platform)
    requires forall i | 0 <= i < |syncs| && syncs[i].taken :: NoRepeat(KeysOf(syncs[i], derived, platform))
    ensures NoRepeat(AfterAll(syncs, derived, platform).handed)
  {
    hide KeysOf, NoRepeat, AfterAll;
    HandedOnceIff(syncs, derived, platform);
    forall i | 0 <= i < |syncs| && syncs[i].taken ensures NoRepeat(NewAt(syncs, derived, platform, i)) {
      NewKeysKeepUnique(KeysOf(syncs[i], derived, platform), AfterAll(syncs[..i], derived, platform).known);
    }
  }

  // ----- a plan that is not key-unique -----

  /** Two fields that declare an entity under one key. */
  function Twins(key: string): DataRecord {
    var spec := Spec(Sensor, key);
    DataRecord([DataField("first", [spec], [], Scalar(None)), DataField("second", [spec], [], Scalar(None))])
  }

  lemma TwinsPlan(key: string)
    ensures var plan := BuildPlan(Twins(key), [], map[]);
      plan.Some? && |plan.value.entities| == 2 && PlanKeys(plan.value.entities, Sensor) == [key, key]
  {
    hide PathKey, PlanKeys;
    var fields := Twins(key).fields;
    var tail := fields[1..];
    assert tail[1..] == [];
    var own := Own(fields[0], ROOT).value;
    assert own == Simple(fields[0].specs, ROOT, "first") + [];
    var other := Own(tail[0], ROOT).value;
    assert other == Simple(tail[0].specs, ROOT, "second") + [];
    JoinNothing(Plan(own, map[], map[]));
    JoinNothing(Plan(other, map[], map[]));
    assert CollectField(fields[0], Twins(key), ROOT, map[]) == Some(Plan(own, map[], map[]));
    assert CollectField(tail[0], Twins(key), ROOT, map[]) == Some(Plan(other, map[], map[]));
    assert CollectFields(tail[1..], Twins(key), ROOT, map[]) == Some(NOTHING);
    assert CollectFields(tail, Twins(key), ROOT, map[]) == Some(Plan(other, map[], map[]));
    var walk := CollectFields(fields, Twins(key), ROOT, map[]);
    assert walk.Some? && walk.value.entities == own + other;
    var entities := BuildPlan(Twins(key), [], map[]).value.entities;
    assert entities == own + other;
    TwoKeys(entities, key);
  }

  lemma TwoKeys(bs: seq<Binding>, key: string)
    requires |bs| == 2 && bs[0].platform == bs[1].platform == Sensor && LiveKey(bs[0]) == LiveKey(bs[1]) == key
    ensures PlanKeys(bs, Sensor) == [key, key]
  {
    hide LiveKey;
    var tail := bs[1..];
    assert PlanKeys(tail[1..], Sensor) == [];
    assert PlanKeys(tail, Sensor) == [key] + [];
    assert [key] + [key] == [key, key];
  }

  /** It can happen: such a key is handed over twice by one call. */
  lemma TwinsAreHandedTwice(key: string)
    ensures AfterAll([Sync(Some(Twins(key)), true)], [], Sensor).handed == [key, key]
  {
    hide BuildPlan, PlanKeys, Twins;
    TwinsPlan(key);
    var syncs := [Sync(Some(Twins(key)), true)];
    assert syncs[..0] == [];
    var two := [key, key];
    var one := two[1..];
    assert NewKeys(one[1..], {}) == [];
    assert NewKeys(one, {}) == [key] + [] && [key] + [key] == [key, key];
    assert [] + [key, key] == [key, key];
  }
}
