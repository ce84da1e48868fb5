/**
  The `oms2::Scope` class: one registry object holding the map from model
  names to owned model instances, and the shared temporary directory.

  The C++ class is a process-wide singleton whose static operations all act
  on `getInstance()`; here the registry is an explicit object and the
  operations are its methods. Each method that changes the map or the
  release record is proved to perform the step of module ScopeModel that
  specifies it, so the lemmas proved there (the
  registry invariant, release exactly once over a lifetime) hold of it.
 */
module Oms2 {
  import opened ScopeModel

  /** What the filesystem answers when asked about one directory path:
      whether it is a directory, whether creating it succeeds, and its
      canonical absolute form. */
  datatype DirectoryAnswers = DirectoryAnswers(isDirectory: bool, created: bool, canonical: string)

  class Scope {
    var models: map<string, ModelId>
    var tempDir: string
    // the bookkeeping the C++ object keeps only implicitly (see ScopeModel.Store)
    ghost var names: map<ModelId, string>
    ghost var released: multiset<ModelId>
    ghost var factoryCalls: seq<FactoryCall>

    /** The registry's state as a ScopeModel value. */
    ghost function Abs(): Store
      reads this
    {
      Store(models, names, released, factoryCalls)
    }

    ghost predicate Valid()
      reads this
    {
      ScopeModel.Valid(Abs())
    }

    /** `Scope()`: no models, and the system's temporary directory
        (`temp_directory_path()`, given here as `systemTempDir`). */
    constructor (systemTempDir: string)
      ensures Valid() && Abs() == Empty()
      ensures tempDir == systemTempDir
    {
      models := map[];
      tempDir := systemTempDir;
      names := map[];
      released := multiset{};
      factoryCalls := [];
    }

    /** A call into the factory of `kind`; `built` is what it returns. */
    method ConsultFactory(kind: Kind, name: string, built: Option<ModelId>) returns (model: Option<ModelId>)
      modifies this`factoryCalls
      ensures model == built
      ensures factoryCalls == old(factoryCalls) + [FactoryCall(kind, name)]
    {
      factoryCalls := factoryCalls + [FactoryCall(kind, name)];
      model := built;
    }

    /** `Model::deleteModel(model)`. */
    method ReleaseModel(model: ModelId)
      modifies this`released
      ensures released == old(released) + multiset{model}
    {
      released := released + multiset{model};
    }

    /** `newFMIModel(name)`; `built` is the answer of `FMICompositeModel::newModel(name)`. */
    method NewFMIModel(name: string, built: Option<ModelId>) returns (status: Status)
      requires Valid() && Fresh(Abs(), built)
      modifies this`models, this`names, this`factoryCalls
      ensures Valid()
      ensures Reply(status, Abs()) == CreateStep(old(Abs()), FMI, name, built)
    {
      // check if name is in scope
      if name in models {
        return Error;
      }
      var model := ConsultFactory(FMI, name, built);
      if model.None? {
        return Error;
      }
      models := models[name := model.value];
      names := names[model.value := name];
      CreatePreservesValid(old(Abs()), FMI, name, built);
      return Ok;
    }

    /** `newTLMModel(name)`; `built` is the answer of `TLMCompositeModel::newModel(name)`. */
    method NewTLMModel(name: string, built: Option<ModelId>) returns (status: Status)
      requires Valid() && Fresh(Abs(), built)
      modifies this`models, this`names, this`factoryCalls
      ensures Valid()
      ensures Reply(status, Abs()) == CreateStep(old(Abs()), TLM, name, built)
    {
      // check if name is in scope
      if name in models {
        return Error;
      }
      var model := ConsultFactory(TLM, name, built);
      if model.None? {
        return Error;
      }
      models := models[name := model.value];
      names := names[model.value := name];
      CreatePreservesValid(old(Abs()), TLM, name, built);
      return Ok;
    }

    /** `unloadModel(name)`. */
    method UnloadModel(name: string) returns (status: Status)
      requires Valid()
      modifies this`models, this`released
      ensures Valid()
      ensures Reply(status, Abs()) == UnloadStep(old(Abs()), name)
    {
      // check if name is in scope
      var it := Find(models, name);
      if it.None? {
        return Error;
      }
      ReleaseModel(it.value);
      models := models - {name};
      UnloadPreservesValid(old(Abs()), name);
      return Ok;
    }

    /** `renameModel(identOld, identNew)` as written: `identNew` is looked
        up, and the test for `identOld` re-tests that same lookup, so every
        call ends at one of the two error exits and nothing is renamed. The
        method has no modifies clause: it changes nothing. */
    method RenameModel(identOld: string, identNew: string) returns (status: Status)
      ensures status == Error
      ensures Reply(status, Abs()) == RenameStep(Abs(), identOld, identNew)
    {
      // check if identNew is in scope
      var it := Find(models, identNew);
      if it.Some? {
        return Error;
      }
      // meant to check whether identOld is in scope, but tests `it` again
      if it.None? {
        return Error;
      }
      // the renaming statements after this point are reached by no input
      assert false;
      return Error;
    }

    /** `getModel(name)`: the instance registered under `name`, or `None`
        (a null pointer) when there is none. Reads the map and changes nothing. */
    method GetModel(name: string) returns (model: Option<ModelId>)
      ensures model.Some? <==> name in models
      ensures model.Some? ==> model.value == models[name]
    {
      var it := Find(models, name);
      if it.None? {
        return None;
      }
      return Some(it.value);
    }

    /** `SetTempDirectory(newTempDir)`; `fs` holds the filesystem's answers
        about `newTempDir`. A directory that does not exist is created
        first; when that fails the old directory is kept. */
    method SetTempDirectory(newTempDir: string, fs: DirectoryAnswers) returns (status: Status)
      modifies this`tempDir
      ensures status == Error <==> !fs.isDirectory && !fs.created
      ensures status == Error ==> tempDir == old(tempDir)
      ensures status == Ok ==> tempDir == fs.canonical
    {
      if !fs.isDirectory {
        if !fs.created {
          return Error;
        }
      }
      tempDir := fs.canonical;
      return Ok;
    }

    /** The destructor `~Scope`: releases every instance still in the map.
        Together with the unloads before it, every instance the registry
        ever owned has then been released exactly once. */
    method Destroy()
      requires Valid()
      modifies this`released
      ensures Abs() == TeardownStep(old(Abs()))
      ensures forall id :: id in names ==> released[id] == 1
      ensures forall id :: id in released ==> id in names
    {
      // each instance is held under one key only, so each is released once
      assert forall a, b :: a in models && b in models && a != b ==> models[a] != models[b] by {
        forall a, b | a in models && b in models && a != b ensures models[a] != models[b] {
          assert names[models[a]] == a && names[models[b]] == b;
        }
      }
      var rest := models.Keys;
      ghost var done: set<ModelId> := {};
      while rest != {}
        invariant rest <= models.Keys
        invariant done <= models.Values
        invariant released == old(released) + multiset(done)
        invariant forall k :: k in models.Keys - rest ==> models[k] in done
        invariant forall k :: k in rest ==> models[k] !in done
        decreases rest
      {
        var n :| n in rest;
        ReleaseModel(models[n]);
        done := done + {models[n]};
        rest := rest - {n};
      }
      assert done == models.Values;
    }
  }

  /** A create / duplicate create / rename / unload sequence, as the code
      answers it: the duplicate create fails and keeps the first model, the
      rename fails, leaving "m1" where it was and "m2" absent, and the unload
      of "m1" succeeds. */
  method CreateRenameUnloadScenario() returns (statuses: seq<Status>, m1AfterRename: Option<ModelId>,
                                               m2AfterRename: Option<ModelId>, m1AfterUnload: Option<ModelId>)
    ensures statuses == [Ok, Error, Error, Ok]
    ensures m1AfterRename == Some(1)
    ensures m2AfterRename == None
    ensures m1AfterUnload == None
  {
    var scope := new Scope("/tmp");
    var s1 := scope.NewFMIModel("m1", Some(1));
    var s2 := scope.NewTLMModel("m1", Some(2));
    var s3 := scope.RenameModel("m1", "m2");
    m2AfterRename := scope.GetModel("m2");
    m1AfterRename := scope.GetModel("m1");
    var s4 := scope.UnloadModel("m1");
    m1AfterUnload := scope.GetModel("m1");
    statuses := [s1, s2, s3, s4];
    scope.Destroy();
  }
}
