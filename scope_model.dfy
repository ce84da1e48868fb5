/**
  The model registry of OMSimulator (the `oms2::Scope`), as values.

  A `Store` is everything the registry knows: the map from model names to the
  model instances it owns, plus the bookkeeping that the C++ code keeps only
  implicitly (the name attribute each owned instance carries, which instances
  have been released, and which factories were consulted). Each registry
  operation is a step function from a store to a `Reply`; the class in
  module Oms2 is proved to follow these steps, and the lemmas below state what
  the steps guarantee over a whole lifetime.
 */
module ScopeModel {

  /** The closed set of model kinds the registry can create. */
  datatype Kind = FMI | TLM

  /** `oms_status_t`, restricted to the two values the registry returns. */
  datatype Status = Ok | Error

  datatype Option<T> = None | Some(value: T)

  /** The identity of one model instance (a `Model*` the registry owns). */
  type ModelId = nat

  /** One call into a kind's factory (`FMICompositeModel::newModel(name)` or
      `TLMCompositeModel::newModel(name)`). */
  datatype FactoryCall = FactoryCall(kind: Kind, name: string)

  /**
    models       -- the registry's `std::map<std::string, Model*>`
    names        -- the name attribute of every instance the registry has ever
                    owned; its keys are the instances ever registered
    released     -- one element per `Model::deleteModel` call, by instance
    factoryCalls -- the factory calls made so far, in order
   */
  datatype Store = Store(
    models: map<string, ModelId>,
    names: map<ModelId, string>,
    released: multiset<ModelId>,
    factoryCalls: seq<FactoryCall>)

  /** The state of a registry that has just been constructed. */
  function Empty(): (r: Store)
  {
    Store(map[], map[], multiset{}, [])
  }

  /** What an operation reports and the store it leaves behind. */
  datatype Reply = Reply(status: Status, after: Store)

  /** The registry's invariant:
      - the key of every entry is the name attribute of the instance it holds
        (so no instance is held under two names);
      - only instances once owned are ever released;
      - an instance the registry has owned is released exactly once if it is
        no longer registered, and not at all while it is. */
  ghost predicate Valid(s: Store)
  {
    && (forall n :: n in s.models ==> s.models[n] in s.names && s.names[s.models[n]] == n)
    && (forall id :: id in s.released ==> id in s.names)
    && (forall id :: id in s.names ==> s.released[id] == if id in s.models.Values then 0 else 1)
  }

  /** What a factory promises: an instance it returns is newly constructed,
      so the registry has never owned it. */
  predicate Fresh(s: Store, built: Option<ModelId>)
  {
    built.Some? ==> built.value !in s.names
  }

  /** `std::map::find`: the entry under `key`, or `None` for `end()`. */
  function Find(m: map<string, ModelId>, key: string): (it: Option<ModelId>)
  {
    if key in m then Some(m[key]) else None
  }

  /** `newFMIModel(name)` for kind FMI and `newTLMModel(name)` for kind TLM.
      `built` is the answer the kind's factory gives for `name` if it is
      asked (`None` stands for a null pointer). */
  function CreateStep(s: Store, kind: Kind, name: string, built: Option<ModelId>): (r: Reply)
    requires Fresh(s, built)
    // a name already taken: error, the factory is not consulted, nothing changes
    ensures name in s.models ==> r == Reply(Error, s)
    // otherwise exactly one factory call, to the factory of `kind`
    ensures name !in s.models ==> r.after.factoryCalls == s.factoryCalls + [FactoryCall(kind, name)]
    // the factory failed: error, nothing registered, nothing released
    ensures name !in s.models && built.None? ==>
      r.status == Error && r.after.models == s.models &&
      r.after.names == s.names && r.after.released == s.released
    // the factory succeeded: `name` now holds exactly that instance, every
    // other entry is as before, and the key set grew by exactly `name`
    ensures name !in s.models && built.Some? ==>
      && r.status == Ok
      && name in r.after.models && r.after.models[name] == built.value
      && r.after.models.Keys == s.models.Keys + {name}
      && (forall n :: n in s.models ==> r.after.models[n] == s.models[n])
      && r.after.names == s.names[built.value := name]
      && r.after.released == s.released
  {
    if name in s.models then
      Reply(Error, s)
    else
      var called := s.(factoryCalls := s.factoryCalls + [FactoryCall(kind, name)]);
      match built
      case None => Reply(Error, called)
      case Some(model) =>
        Reply(Ok, called.(models := called.models[name := model], names := called.names[model := name]))
  }

  /** `unloadModel(name)`. */
  function UnloadStep(s: Store, name: string): (r: Reply)
    // an unknown name: error, nothing changes
    ensures name !in s.models ==> r == Reply(Error, s)
    // a known name: its instance is released once more, only its key is dropped
    ensures name in s.models ==>
      && r.status == Ok
      && r.after.models.Keys == s.models.Keys - {name}
      && (forall n :: n in r.after.models ==> r.after.models[n] == s.models[n])
      && r.after.released == s.released + multiset{s.models[name]}
      && r.after.names == s.names
      && r.after.factoryCalls == s.factoryCalls
  {
    match Find(s.models, name)
    case None => Reply(Error, s)
    case Some(model) =>
      Reply(Ok, s.(models := s.models - {name}, released := s.released + multiset{model}))
  }

  /** `renameModel(identOld, identNew)` as written. The only lookup is of
      `identNew`; the test meant for `identOld` tests the result of that
      same lookup again, so both tests are error exits and the rename itself
      is never reached. */
  function RenameStep(s: Store, identOld: string, identNew: string): (r: Reply)
    ensures r.status == Error
    ensures r.after == s
  {
    var it := Find(s.models, identNew);
    if it.Some? then
      Reply(Error, s)  // identNew is already in the scope
    else if it.None? then
      Reply(Error, s)  // reported as: identOld is not in the scope
    else
      assert false; Reply(Error, s)
  }

  /** The destructor `~Scope`: every instance still registered is released;
      the registry itself ends here. The C++ loop releases once per key; the
      invariant holds each instance under one key only, so that is once per
      registered instance. */
  function TeardownStep(s: Store): (r: Store)
    requires Valid(s)
    ensures r.models == s.models && r.names == s.names && r.factoryCalls == s.factoryCalls
    ensures forall id :: id in r.names ==> r.released[id] == 1
    ensures forall id :: id in r.released ==> id in r.names
  {
    s.(released := s.released + multiset(s.models.Values))
  }

  /** The registry operations that change, or could change, the store. */
  datatype Op =
    | NewModel(kind: Kind, name: string, built: Option<ModelId>)
    | Unload(name: string)
    | Rename(identOld: string, identNew: string)

  function Apply(s: Store, op: Op): (r: Reply)
    requires op.NewModel? ==> Fresh(s, op.built)
  {
    match op
    case NewModel(kind, name, built) => CreateStep(s, kind, name, built)
    case Unload(name) => UnloadStep(s, name)
    case Rename(identOld, identNew) => RenameStep(s, identOld, identNew)
  }

  /** Every factory consulted along `ops` returns a new instance. */
  predicate Feasible(s: Store, ops: seq<Op>)
    decreases |ops|
  {
    |ops| == 0 ||
    ((ops[0].NewModel? ==> Fresh(s, ops[0].built)) && Feasible(Apply(s, ops[0]).after, ops[1..]))
  }

  /** The store after performing `ops` in order. */
  function Run(s: Store, ops: seq<Op>): (r: Store)
    requires Feasible(s, ops)
    decreases |ops|
  {
    if |ops| == 0 then s else Run(Apply(s, ops[0]).after, ops[1..])
  }

  lemma CreatePreservesValid(s: Store, kind: Kind, name: string, built: Option<ModelId>)
    requires Valid(s) && Fresh(s, built)
    ensures Valid(CreateStep(s, kind, name, built).after)
  {
  }

  /** Unloading a registered name releases its instance exactly once and no
      other name still holds that instance. */
  lemma UnloadPreservesValid(s: Store, name: string)
    requires Valid(s)
    ensures Valid(UnloadStep(s, name).after)
    ensures name in s.models ==>
      var model := s.models[name];
      var t := UnloadStep(s, name).after;
      s.released[model] == 0 && t.released[model] == 1 && model !in t.models.Values
  {
  }

  /** The invariant holds after any feasible sequence of operations, instances
      once owned stay recorded with their name, and releases are never undone. */
  lemma {:induction false} RunPreservesValid(s: Store, ops: seq<Op>)
    requires Valid(s) && Feasible(s, ops)
    ensures Valid(Run(s, ops))
    ensures s.released <= Run(s, ops).released
    ensures forall id :: id in s.names ==> id in Run(s, ops).names && Run(s, ops).names[id] == s.names[id]
    decreases |ops|
  {
    if |ops| > 0 {
      var op := ops[0];
      match op {
        case NewModel(kind, name, built) => CreatePreservesValid(s, kind, name, built);
        case Unload(name) => UnloadPreservesValid(s, name);
        case Rename(_, _) =>
      }
      RunPreservesValid(Apply(s, op).after, ops[1..]);
    }
  }

  /** Over the registry's whole life -- any feasible sequence of creates,
      unloads and renames, then the destructor -- every instance it ever owned
      is released exactly once, and nothing else is released. */
  lemma LifetimeReleasesOnce(ops: seq<Op>)
    requires Feasible(Empty(), ops)
    ensures Valid(Run(Empty(), ops))
    ensures var t := TeardownStep(Run(Empty(), ops));
      && (forall id :: id in t.names ==> t.released[id] == 1)
      && (forall id :: id in t.released ==> id in t.names)
  {
    RunPreservesValid(Empty(), ops);
  }

  /** Once registered, a name keeps the same instance until it is unloaded:
      no create, and no rename, can take it over in between. */
  lemma {:induction false} RegisteredUntilUnloaded(s: Store, ops: seq<Op>, name: string)
    requires Feasible(s, ops) && name in s.models
    requires forall i :: 0 <= i < |ops| ==> ops[i] != Unload(name)
    ensures name in Run(s, ops).models && Run(s, ops).models[name] == s.models[name]
    decreases |ops|
  {
    if |ops| > 0 {
      RegisteredUntilUnloaded(Apply(s, ops[0]).after, ops[1..], name);
    }
  }

  /** A name that is registered cannot be the target of a second successful
      create; the attempt leaves the store as it was, whatever the kind. */
  lemma {:induction false} NoSecondCreate(s: Store, ops: seq<Op>, name: string, kind: Kind, built: Option<ModelId>)
    requires Feasible(s, ops) && name in s.models
    requires forall i :: 0 <= i < |ops| ==> ops[i] != Unload(name)
    requires Fresh(Run(s, ops), built)
    ensures CreateStep(Run(s, ops), kind, name, built) == Reply(Error, Run(s, ops))
  {
    RegisteredUntilUnloaded(s, ops, name);
  }
}
