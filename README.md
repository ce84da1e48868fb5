# OMSimulator model registry (`oms2::Scope`) in Dafny

OMSimulator keeps every composite model it has loaded in one registry, the
`oms2::Scope`. The registry maps model names to the model instances it owns.
It creates FMI and TLM composite models through a factory for each kind,
unloads (destroys) them, is meant to rename them, and looks them up. It also
holds the shared temporary directory. On destruction it releases every
instance still registered.

This project models that registry in two layers:

- `scope_model.dfy`, module `ScopeModel`: the registry state as a value,
  `Store`, and one step function per operation (`CreateStep`, `UnloadStep`,
  `RenameStep`, `TeardownStep`). The value also holds the bookkeeping the C++
  object keeps only implicitly: the name attribute of each instance it has
  owned (`names`), the releases made so far (`released`, a multiset, one
  element per `Model::deleteModel` call), and the factory calls made
  (`factoryCalls`). `Valid` is the registry invariant: every key is the name
  attribute of the instance it holds, and an instance once owned is released
  exactly once if it is no longer registered, and not at all while it is.
  Lemmas prove the invariant is kept by every operation and over any sequence
  of operations. From that they prove the lifetime property: after any history
  of creates, unloads and renames, followed by the destructor, every instance
  ever owned has been released exactly once.
- `scope.dfy`, module `Oms2`: the class `Scope` with the `models` map and
  `tempDir` fields. Its methods follow the C++ code branch by branch. Each
  method that changes the map or the release record is proved to perform
  the matching `ScopeModel` step, so the lemmas above hold of it. The
  destructor becomes the method
  `Destroy`, which loops over the map releasing each instance.

How the model treats the source's outside world:

- The process-wide singleton (`getInstance`) becomes an explicit object
  created with `new Scope(systemTempDir)`.
- A kind's factory (`FMICompositeModel::newModel`, `TLMCompositeModel::newModel`)
  is an input. The create methods take `built: Option<ModelId>`, the answer
  the factory would give, with `None` standing for a null pointer. The
  `factoryCalls` log records each time a factory is actually consulted. A
  factory returns a newly constructed instance, so such an id can never
  already be in `names`. `ModelId` identifies an instance, not a memory
  address.
- The filesystem is an input for `SetTempDirectory`: `DirectoryAnswers`
  gives the results of `is_directory`, `create_directory` and `canonical`
  for the requested path.

What the code does differs from what its comments and messages suggest:

- `renameModel` (src/OMSimulatorLib/Scope.cpp:118-142) looks up only
  `identNew`, and returns an error if it is present. The comment at line 130
  says "check if identOld is in scope", but `identOld` is never looked up:
  line 131 tests the result of the `identNew` lookup again. That result is
  necessarily "absent" at that point, so the call always returns an error
  there, even when `identOld` exists. Lines 137-139 are reached by no input.
  So the code never renames anything, and there is no rename round trip to
  prove. `RenameStep` and `Scope.RenameModel` state this.
  `CreateRenameUnloadScenario` states how the code answers a create /
  duplicate create / rename / unload sequence: the rename fails, "m1" still
  holds its model and "m2" stays absent.
- The log messages tell the failures apart: a duplicate name (lines 68, 88,
  126), a missing name (lines 108, 133) and a directory that could not be
  created (line 166). The null-factory exit (lines 73-74) logs nothing. Yet
  every one of these paths returns the same `oms_status_error`, so the
  model's `Status` is `Ok | Error`.

## Model

| member | source | states |
|---|---|---|
| `ScopeModel.CreateStep` | src/OMSimulatorLib/Scope.cpp:60-98 | A name already registered gives Error, consults no factory and leaves the store unchanged. Otherwise exactly one call goes to the factory of the requested kind. A null answer gives Error; nothing is registered or released. A non-null answer gives Ok: the name maps to exactly the returned instance, every other entry is unchanged, and the key set grows by exactly that name. |
| `ScopeModel.UnloadStep` | src/OMSimulatorLib/Scope.cpp:100-116 | An unknown name gives Error and no change. A known name gives Ok: its instance gets one more release, only that key is removed, and the other entries keep their instances. |
| `ScopeModel.RenameStep` | src/OMSimulatorLib/Scope.cpp:118-142 | Every call returns Error and leaves the store (map, names, releases) unchanged, whichever names are registered. |
| `ScopeModel.TeardownStep` | src/OMSimulatorLib/Scope.cpp:46-51 | The destructor releases the instances still registered. It requires a valid store, and then leaves every instance ever owned released exactly once and nothing else released. |
| `ScopeModel.CreatePreservesValid` | src/OMSimulatorLib/Scope.cpp:64-77 | A create keeps the invariant: keys agree with name attributes, so no instance is held under two names, and the release accounting is 0 while registered and 1 after. |
| `ScopeModel.UnloadPreservesValid` | src/OMSimulatorLib/Scope.cpp:104-115 | An unload keeps the invariant. The unloaded instance had never been released, is now released exactly once, and no other name still holds it. |
| `ScopeModel.RunPreservesValid` | src/OMSimulatorLib/Scope.cpp:60-142 | Any sequence of creates, unloads and renames keeps the invariant. It never forgets an owned instance or its name, and never undoes a release. |
| `ScopeModel.LifetimeReleasesOnce` | src/OMSimulatorLib/Scope.cpp:46-116 | From an empty registry, after any sequence of operations and then the destructor, every instance the registry ever owned is released exactly once and no other instance is released. |
| `ScopeModel.RegisteredUntilUnloaded` | src/OMSimulatorLib/Scope.cpp:60-142 | A registered name keeps the same instance through any sequence of operations that does not unload it. |
| `ScopeModel.NoSecondCreate` | src/OMSimulatorLib/Scope.cpp:64-70 | While a name stays registered (no unload of it), a later create of that name, of either kind, returns Error and changes nothing. |
| `Oms2.Scope.constructor` | src/OMSimulatorLib/Scope.cpp:40-44 | A new registry is empty and valid. Its temporary directory is the system's. |
| `Oms2.Scope.ConsultFactory` | src/OMSimulatorLib/Scope.cpp:72-72 | A factory call returns the factory's answer and is recorded once in `factoryCalls`, with its kind and name. |
| `Oms2.Scope.ReleaseModel` | src/OMSimulatorLib/Scope.cpp:112-112 | `Model::deleteModel` adds exactly one release of the given instance. |
| `Oms2.Scope.NewFMIModel` | src/OMSimulatorLib/Scope.cpp:60-78 | Performs `CreateStep` for kind FMI. It keeps the invariant and does not touch the temporary directory or the releases. |
| `Oms2.Scope.NewTLMModel` | src/OMSimulatorLib/Scope.cpp:80-98 | Performs `CreateStep` for kind TLM. It keeps the invariant and does not touch the temporary directory or the releases. |
| `Oms2.Scope.UnloadModel` | src/OMSimulatorLib/Scope.cpp:100-116 | Performs `UnloadStep` and keeps the invariant. |
| `Oms2.Scope.RenameModel` | src/OMSimulatorLib/Scope.cpp:118-142 | Always returns Error, and agrees with `RenameStep`. It has no modifies clause, so the object is unchanged. |
| `Oms2.Scope.GetModel` | src/OMSimulatorLib/Scope.cpp:144-156 | Returns the instance stored under the name exactly when the name is a key, and None (null) otherwise. It has no modifies clause, so it changes nothing. |
| `Oms2.Scope.SetTempDirectory` | src/OMSimulatorLib/Scope.cpp:158-179 | Error exactly when the path is not a directory and `create_directory` returns false; the temporary directory is then unchanged. Otherwise Ok, and the directory becomes the path's canonical form. Nothing else changes. |
| `Oms2.Scope.Destroy` | src/OMSimulatorLib/Scope.cpp:46-51 | The loop over the map performs `TeardownStep`. Afterwards every instance the registry ever owned has been released exactly once, and nothing else has been released. |
| `Oms2.CreateRenameUnloadScenario` | src/OMSimulatorLib/Scope.cpp:60-156 | For create "m1" (FMI), create "m1" (TLM), rename "m1" to "m2", unload "m1", the statuses are Ok, Error, Error, Ok. After the rename "m1" still holds the first model and "m2" is absent. After the unload "m1" is absent. |

## Left out

- Logging (`logError`, `logWarning`, `logInfo`): messages only, with no effect on the registry's state.
- The function-local static inside `getInstance` and its lifetime: the registry is an explicit object instead.
- Thread safety: the code has no locking, and the model is sequential.
- How the FMI and TLM composite models are built, and what `Model::deleteModel` frees: these are outside this code. The factory's answer is an input, and a release is recorded as an event.
- `Model::setName`: it is called only from the unreachable part of `renameModel`.
- A renaming that works, and the rename round trip: the code cannot rename, and the model follows the code.
- Filesystem behaviour behind `temp_directory_path` (line 42), `is_directory` (line 162), `create_directory` (line 164) and `canonical` (line 174): their results are inputs. All four are the throwing forms of these Boost calls, and the exceptions they throw are not modelled. In particular, `create_directory` reports an operating-system failure by throwing, and returns false without an error only when the path already exists as a directory. The model's Error exit from `SetTempDirectory` therefore stands for that case (such as another process creating the directory between the two calls), not for a creation that really failed.
- Calling `SetTempDirectory` twice with the same existing directory gives the same stored path both times. The model does not state this as a separate lemma: its filesystem answers are inputs, so the fact is immediate from the method's contract.
- Memory address reuse: `ModelId` stands for an instance, so an id is never handed out twice, even where an allocator could reuse an address.
- src/OMSimulatorPython/NewAPI.py: Python wrappers that forward to the C API and raise an exception on a non-OK status. They contain no registry logic.
