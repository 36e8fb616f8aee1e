# compenv and repro, modelled in Dafny

`compenv` (with its predecessor package `repro`) records the computational environment of
DataJoint computations. When a table's `make` method runs, the environment is recorded before and
after the call: the installed Python distributions and the active modules. The record is filed
under the table's primary key, and two stored records can be compared for whether their
distributions differ.

This project models the core of both packages:

- the computation engine with its consistency check;
- the environment records and their text renderings;
- the modular units and the package hierarchy built from file paths;
- the translators between primary keys and identifiers;
- the DataJoint table facades over a master table with part tables;
- the repository of computation records and the unit of work around it;
- the record and diff services, the controller and entrypoint;
- the converters that turn loaded modules and installed distributions into model values.

One Dafny module models each source file. Where two source files hold the same logic, one Dafny
module models both. Tables, translators, services, caches and the frame of an entrypoint appear
as classes whose fields the methods update. Records, distributions, modules and hierarchies of
paths are datatypes.

Injected code becomes parameters of the model:

- *Triggers* are the `make` calls. A trigger is a datatype of its effect on the environment and
  whether it raises.
- *Finders* read the interpreter. A finder is a function of the world it observes.
- The *hash* behind an identifier is a function from key items to strings.
- `Path.locate` and `Path.exists` are functions on paths.

Python's exceptions become the `Err` cases of `Wrappers.Result`. Each carries the message the
source builds.

Some library code is modelled only as far as the renderings and paths need it:

- `pathlib` paths are sequences of parts: an optional anchor, then the names.
- `textwrap.dedent` and `textwrap.indent` are modelled, and so are `str.strip`, `str.ljust`,
  `str.join` and sorting by code point.

These models are in the modules `Paths`, `Text`, `Templates` and `Ordering`.

## Model

| member | source | states |
|---|---|---|
| ReproModel.Environment.Record | repro/model/model.py:60-68 | taking a record gives the record of the current world, leaves the world as it is and logs one `Recorded` event |
| ReproModel.Environment.Run | repro/model/model.py:33 | calling a trigger changes the world by its effect, logs one `Triggered` event and reports whether it raised |
| ReproModel.ConsistencyCheck.constructor | repro/model/model.py:82-87 | a new check has no success flag and no records yet |
| ReproModel.ConsistencyCheck.Success | repro/model/model.py:89-94 | `success` is a RuntimeError with the source's message until the block has been left, then the stored flag |
| ReproModel.ConsistencyCheck.FinalRecord | repro/model/model.py:96-101 | `record` is a RuntimeError with the source's message until the block has been left, then the record taken at exit |
| ReproModel.ConsistencyCheck.Enter | repro/model/model.py:103-106 | entering stores the record of the current world and changes nothing else |
| ReproModel.ConsistencyCheck.Exit | repro/model/model.py:108-116 | leaving stores the record of the current world, and success holds exactly when it equals the record taken on entry |
| ReproModel.Computation.constructor | repro/model/model.py:16-26 | a new computation has not been executed and has issued no warning |
| ReproModel.Computation.Execute | repro/model/model.py:28-37 | a second execution is a RuntimeError that changes nothing. Otherwise: the environment is recorded, the trigger runs once, and the environment is recorded again. A raising trigger propagates its exception, and the computation stays unexecuted. Otherwise the result pairs the identifier with the record taken after the trigger, and one warning is issued exactly when the two records differ |
| ReproModel.ActiveDistributionsAreActive | repro/model/model.py:65 | when the loaded modules are exactly the active modules of the installed distributions, the installed distributions that share a module with them are exactly the ones `InstalledDistributions.active` keeps |
| ReproModel.MakeRecord | repro/model/record.py:14-19 | constructing `Record` accepts exactly its two field names as keywords; any other set of keywords is a TypeError |
| ReproModel.EnvironmentRecordAsWrittenFails | repro/model/model.py:66-68 | the `Record` call as written passes a third keyword and raises a TypeError for every environment |
| ReproModel.EnvironmentRecord | repro/model/model.py:60-68 | the record of a world is the `Record` built from its installed distributions and active modules |
| ReproModel.RecordsDifferIffWorldsDo | repro/model/model.py:115-116 | two records of the environment are equal exactly when the installed distributions and the active modules both are |
| ReproModel.ExecuteRecordedComputation | repro/model/model.py:115-116 | a fresh computation in an environment that records with `EnvironmentRecord` warns exactly when its non-raising trigger changed the installed distributions or the active modules, and returns the record of the changed state; a raising trigger leaves it unexecuted without warnings |
| ReproService.ComputationRecordRepository.Store | repro/service/record.py:12 | assigning a record under an identifier replaces that entry and leaves every other entry as it was |
| ReproService.Record | repro/service/record.py:9-12 | a fresh computation records the environment, runs the trigger once and records it again; a raising trigger leaves the repository alone; otherwise the record taken after the trigger is filed under the identifier and no other entry changes |
| ReproRecord.Active | repro/model/record.py:33-36 | the active distributions are exactly the installed ones with an active module |
| ReproRecord.ActiveIsAFilter | repro/model/record.py:33-36 | `active` is idempotent, distributes over union, and is empty exactly when no module of an installed distribution is active |
| ReproRecord.Contains | repro/model/record.py:63-65 | a module is in a distribution exactly when it is one of its modules |
| ReproRecord.Length | repro/model/record.py:72-74 | the length of a distribution is the number of its modules |
| ReproRecord.Intersection | repro/model/record.py:90-96 | `d & other` is the intersection of the distribution's modules with the other set |
| ReproRecord.Union | repro/model/record.py:90-96 | the `Set` union of a distribution and another set is the union of the distribution's modules with the other set |
| ReproRecord.Difference | repro/model/record.py:90-96 | `d - other` is the distribution's modules that are not in the other set |
| ReproRecord.SymmetricDifference | repro/model/record.py:90-96 | `d ^ other` is the modules in exactly one of the distribution and the other set |
| ReproRecord.SetOperationLaws | repro/model/record.py:90-96 | `&`, `\|` and `^` on distributions produce sets of modules that satisfy inclusion–exclusion, `^` is union minus intersection, and `&` and `^` commute |
| ReproRecord.ModuleLtIsStrictTotalOrder | repro/model/record.py:110-115 | the dataclass order of modules (by file, then inactive before active) is a strict total order |
| ReproRecord.DedentDistributionTemplate | repro/model/record.py:78-85 | dedenting the f-string template leaves a leading empty line, then the header lines without their 12-space margin, then a trailing empty line |
| ReproRecord.DistributionStrLines | repro/model/record.py:76-88 | `str(distribution)` is the lines `Distribution:`, its name, its version and `modules:`, followed by the files of its sorted modules indented by eight spaces |
| ReproRecord.MaxNameLength | repro/model/record.py:41 | the widest name belongs to one of the distributions and is no shorter than any of them |
| ReproRecord.InstalledLineLayout | repro/model/record.py:43 | a distribution's line is four spaces, `+` or `-` by whether it is active, the name padded to the widest name, then the version in parentheses |
| ReproRecord.InstalledLinesShape | repro/model/record.py:44 | the rendering has the header, then one line per distribution, in sorted order |
| ReproRecord.InstalledLinesCover | repro/model/record.py:43-44 | every installed distribution has its line in the rendering |
| ReproRecord.InstalledLinesOnly | repro/model/record.py:43-44 | every line after the header is the line of an installed distribution |
| ReproRecord.InstalledDistributionsStr | repro/model/record.py:38-44 | rendering is a ValueError (from `max` of nothing) exactly when no distribution is installed |
| ReproRecord.InstalledDistributionsStrLines | repro/model/record.py:38-44 | splitting the rendering at line breaks gives back its header and sorted lines |
| ReproRecord.ActiveLinesShape | repro/model/record.py:102-107 | the rendering of active modules is the header, then one line per module, in sorted order |
| ReproRecord.ActiveLinesContents | repro/model/record.py:106-107 | the lines after the header are exactly the indented files of the active modules |
| ReproRecord.RecordStr | repro/model/record.py:21-27 | rendering a record fails exactly when it has no installed distributions |
| ReproRecord.RecordStrSections | repro/model/record.py:21-27 | a record renders as `Record:`, then the installed distributions and the active modules, each indented by four spaces |
| ReproRecord.RecordStrLines | repro/model/record.py:21-27 | with single-line names, versions and files, the rendering is the heading followed by the two renderings, each of whose lines is indented by four spaces |
| ReproUnits.Contains | repro/model.py:16-42 | `in` on a unit is a TypeError for a value that is not a unit, and otherwise holds when the value is the unit itself or is held by one of a package's units |
| ReproUnits.ModuleHoldsOnlyItself | repro/model.py:16-20 | a module holds nothing but itself |
| ReproUnits.PackageHoldsItsUnits | repro/model.py:40-42 | a package holds everything its units hold |
| ReproUnits.HoldsIsDescent | repro/model.py:40-42 | a unit holds exactly itself and its descendants |
| ReproUnits.HoldsIsTransitive | repro/model.py:40-42 | holding is transitive |
| ReproUnits.DistributionContains | repro/model.py:59-63 | a distribution holds only modules, and holds a module exactly when it is among its modules |
| ReproUnits.IterationAgreesWithMembership | repro/model.py:59-71 | when a distribution holds only modules, a unit is in it exactly when iteration yields it |
| ReproHierarchy.InitPaths | repro/hierarchy.py:23 | the init paths are among the given paths |
| ReproHierarchy.MinDepth | repro/hierarchy.py:27 | the top-level depth is the depth of some init path and no deeper than any |
| ReproHierarchy.TopInits | repro/hierarchy.py:28 | the top-level init paths are a non-empty subset of the init paths |
| ReproHierarchy.Remaining | repro/hierarchy.py:29-35 | every recursive call gets strictly fewer paths, so `create_hierarchy` terminates |
| ReproHierarchy.NoInitsGiveModulesOnly | repro/hierarchy.py:24-26 | without an `__init__.py`, all the paths are module paths and there are no sub-hierarchies |
| ReproHierarchy.SubHierarchyKeys | repro/hierarchy.py:27-38 | the sub-hierarchies are keyed by exactly the shallowest init paths |
| ReproHierarchy.TopLevelModulePaths | repro/hierarchy.py:30-34 | the module paths are exactly the non-init paths one level above the top-level init paths |
| ReproHierarchy.SubHierarchyOfInit | repro/hierarchy.py:36-38 | each sub-hierarchy is the hierarchy of the remaining paths under its init path's parent |
| ReproHierarchy.HierarchyKeepsToItsPaths | repro/hierarchy.py:20-39 | a hierarchy holds none but the given paths at any depth |
| ReproHierarchy.Hierarchy.constructor | repro/hierarchy.py:12-17 | a new hierarchy has no module paths and no sub-hierarchies |
| ReproHierarchy.Hierarchy.AddModulePaths | repro/hierarchy.py:25-34 | adding module paths extends the module paths and keeps the sub-hierarchies |
| ReproHierarchy.Hierarchy.ClearModulePaths | repro/hierarchy.py:44 | clearing empties the module paths and keeps the sub-hierarchies |
| ReproHierarchy.Hierarchy.Attach | repro/hierarchy.py:38 | attaching a sub-hierarchy under an init path adds it and changes nothing else |
| ReproHierarchy.MinimumDepth | repro/hierarchy.py:27 | the loop finds the minimum depth of the init paths |
| ReproHierarchy.CreateHierarchy | repro/hierarchy.py:20-39 | the hierarchy built in place has the value of the recursive definition of the paths' hierarchy |
| ReproHierarchy.CreatePackageHierarchy | repro/hierarchy.py:27-39 | with init paths present, the hierarchy built is that of the paths |
| ReproHierarchy.AddTopModulePaths | repro/hierarchy.py:30-34 | the loop adds exactly the non-init candidates at the depth above the top-level init paths |
| ReproHierarchy.AttachSubHierarchies | repro/hierarchy.py:36-38 | the loop attaches, for every top-level init path, a fresh hierarchy of the paths below it |
| ReproHierarchy.ModulesOf | repro/hierarchy.py:47 | the units made from module paths are all modules |
| ReproHierarchy.CreatePackages | repro/hierarchy.py:42-50 | the packages are those of the hierarchy's value, one per sub-hierarchy, and every level of the hierarchy ends with its module paths cleared |
| ReproHierarchy.CollectPackages | repro/hierarchy.py:45-50 | the loop over the sub-hierarchies gathers one package each and clears each sub-hierarchy |
| ReproHierarchy.CreatePackageOf | repro/hierarchy.py:47-49 | a package is named after its init path's parent, has the init path's file, and holds the modules of its sub-hierarchy with the packages built recursively |
| ReproTranslator.DataJointTranslator.constructor | repro/translator.py:18-21 | a new translator has no reverse translations |
| ReproTranslator.DataJointTranslator.ToIdentifier | repro/translator.py:23-27 | the identifier is the hash of the key, and the key object itself is filed under it |
| ReproTranslator.DataJointTranslator.ToPrimaryKey | repro/translator.py:29-31 | a filed identifier gives its key back, and an unknown one is a KeyError |
| ReproTranslator.TranslateBackAfterChange | repro/translator.py:26 | the key is stored by reference: a key changed after translation comes back changed |
| PrimaryKeys.AsMap | compenv/adapters/translator.py:50-52 | a key's items as a dictionary have exactly the attribute names among the items |
| PrimaryKeys.ItemLtIsStrictTotalOrder | compenv/adapters/translator.py:52 | `sort_keys` orders the items of a key strictly and totally |
| PrimaryKeys.Serialised | compenv/adapters/translator.py:52 | `json.dumps(..., sort_keys=True)` lists the same items in sorted order |
| PrimaryKeys.SameItems | compenv/adapters/translator.py:52 | two keys with unique attribute names are the same dictionary exactly when they have the same items |
| PrimaryKeys.Blake2bIsOrderInvariant | compenv/adapters/translator.py:50-52 | equal keys hash alike whatever their item order; with an injective digest, keys hash alike exactly when they are equal |
| CompenvTranslator.DJTranslator.constructor | compenv/adapters/translator.py:34-37 | a new translator has no reverse translations |
| CompenvTranslator.DJTranslator.ToInternal | compenv/adapters/translator.py:39-43 | the identifier is the hash of the key, and a copy of the key is filed under it |
| CompenvTranslator.DJTranslator.ToExternal | compenv/adapters/translator.py:45-47 | a filed identifier gives its key back, and an unknown one is a KeyError |
| CompenvTranslator.TranslateBackAfterChange | compenv/adapters/translator.py:42 | the key is copied: changing it after translation does not change what comes back |
| CompenvRecord.MaxNameLength | compenv/model/record.py:32 | the widest name belongs to one of the distributions and is no shorter than any |
| CompenvRecord.DistributionsLineLayout | compenv/model/record.py:33 | a line is the name padded to the widest name, then the version in parentheses |
| CompenvRecord.DistributionsLinesShape | compenv/model/record.py:33-34 | there is one line per distribution, in sorted order |
| CompenvRecord.DistributionsLinesContents | compenv/model/record.py:33-34 | the lines are exactly the lines of the distributions |
| CompenvRecord.DistributionsStr | compenv/model/record.py:30-34 | rendering is a ValueError exactly when the set is empty |
| CompenvRecord.DistributionsStrLines | compenv/model/record.py:30-34 | splitting the rendering at line breaks gives back the sorted lines |
| CompenvRecord.InstalledDistributionsStr | compenv/model/record.py:40-42 | rendering fails exactly when the set is empty |
| CompenvRecord.InstalledDistributionsStrLines | compenv/model/record.py:40-42 | the rendering is the header, then the sorted lines indented by four spaces |
| CompenvRecord.RecordStr | compenv/model/record.py:18-24 | rendering a record fails exactly when it has no installed distributions |
| CompenvRecord.RecordStrLines | compenv/model/record.py:18-24 | a record renders as `Record:` followed by its installed distributions, each of their lines indented by four more spaces |
| CompenvRecord.TemplateDedented | compenv/model/record.py:54-59 | dedenting the template removes its 12-space margin and leaves empty first and last lines |
| CompenvRecord.DistributionStrLines | compenv/model/record.py:52-60 | `str(distribution)` is the three lines `Distribution:`, its indented name and its indented version |
| CompenvComputation.ComputationRecordStr | compenv/model/computation.py:17-22 | rendering fails exactly when the record has no installed distributions |
| CompenvComputation.ComputationRecordStrLines | compenv/model/computation.py:17-22 | a computation record renders as `Computation Record:`, then the identifier line and the record's lines, each indented by four spaces |
| DataJoint.Merge | compenv/infrastructure/facade.py:50 | `{**a, **b}` has the attributes of both, with `b`'s values where both have one |
| DataJoint.Strip | compenv/infrastructure/facade.py:63 | `dict(e.items() - primary.items())` keeps exactly the attributes whose value differs from the key's |
| DataJoint.StripMerge | compenv/infrastructure/facade.py:50-63 | stripping the key from a merged row gives back the entity's attributes |
| DataJoint.Restrict | compenv/infrastructure/facade.py:62 | `part & primary` keeps exactly the rows that agree with the key |
| DataJoint.MatchesIsProjection | compenv/infrastructure/facade.py:62 | for a complete key, a row agrees with it exactly when the row's key attributes are that key |
| DataJoint.ContainsCompleteKey | compenv/infrastructure/facade.py:22 | for a complete key, `primary in table` holds exactly when that key is stored |
| DataJoint.ContainsPartialKey | repro/infrastructure/facade.py:18 | for a key made of some of the primary attributes, `primary in table` holds exactly when some stored key extends it |
| DataJoint.Tables.constructor | compenv/infrastructure/table.py:91-106 | the tables start empty, with part tables for each part entity |
| DataJoint.Tables.Insert1 | compenv/infrastructure/facade.py:43 | `insert1` adds the key and reports a duplicate exactly when the key was there |
| DataJoint.Tables.Insert | compenv/infrastructure/facade.py:49-51 | `insert` adds the rows to one part table and changes nothing else |
| DataJoint.Tables.Fetch | compenv/infrastructure/facade.py:62 | `(part & primary).fetch` gives exactly the part rows that agree with the key |
| DataJoint.Tables.DeletePart | repro/infrastructure/facade.py:52-53 | `delete_quick` on a restricted part removes exactly the rows that agree with the key |
| DataJoint.Tables.DeleteMaster | repro/infrastructure/facade.py:54 | `(table & primary).delete_quick()` removes every stored key matching the key, unless a part row still refers to one of them, when nothing is removed |
| CompenvEntity.AsDict | compenv/adapters/entity.py:22-23 | `asdict` of a distribution entity gives exactly its two fields |
| CompenvEntity.FromMapping | compenv/adapters/entity.py:25-28 | `from_mapping` is a KeyError naming the first field missing, and succeeds exactly when both fields are there |
| CompenvEntity.FromMappingReadsTwoFields | compenv/adapters/entity.py:25-28 | `from_mapping` depends only on the two fields and inverts `asdict` |
| CompenvFacade.PartRows | compenv/infrastructure/facade.py:49-51 | the inserted part rows are exactly the key merged with each entity's attributes |
| CompenvFacade.PartRowsHaveKey | compenv/infrastructure/facade.py:50 | every part row holds the key and the entity fields, and its key attributes are the key |
| CompenvFacade.Entities | compenv/infrastructure/facade.py:62-65 | every fetched row whose stripped attributes are a valid entity contributes that entity |
| CompenvFacade.DJTableFacade.Add | compenv/infrastructure/facade.py:36-51 | adding a stored key is a ValueError that changes nothing; otherwise the key goes into the master table and its distributions into the part table |
| CompenvFacade.DJTableFacade.Get | compenv/infrastructure/facade.py:19-66 | getting a key no stored key matches is a KeyError; otherwise the record holds the entities fetched from the part rows matching the key, which for a partial key are those of every stored key extending it |
| CompenvFacade.DJTableFacade.Keys | compenv/infrastructure/facade.py:68-70 | iteration yields exactly the complete keys the table contains |
| CompenvFacade.DJTableFacade.Length | compenv/infrastructure/facade.py:72-74 | the length is the number of stored keys |
| CompenvFacade.GetAfterAdd | compenv/infrastructure/facade.py:49-66 | what is fetched for a key after its rows were inserted is exactly the inserted entities |
| CompenvFacade.AddThenGet | compenv/infrastructure/facade.py:36-66 | adding a record under a new key and getting that key gives the same record back |
| ReproFacade.PartRows | repro/infrastructure/facade.py:42-43 | the inserted part rows are exactly the key joined with each entity |
| ReproFacade.MakeEntity | repro/infrastructure/facade.py:67 | building a part entity from a dictionary succeeds exactly when its keys are the entity's fields, and gives that dictionary; any other dictionary is a TypeError |
| ReproFacade.Stripped | repro/infrastructure/facade.py:66 | the fetched entities are exactly the fetched rows without their key |
| ReproFacade.FetchAfterInsert | repro/infrastructure/facade.py:42-68 | what is fetched for a key after its rows were inserted is exactly the inserted entities |
| ReproFacade.DeleteKeepsOtherKeys | repro/infrastructure/facade.py:52-53 | deleting a key's part rows keeps exactly the rows of other keys |
| ReproFacade.RecordTableFacade.Insert | repro/infrastructure/facade.py:32-43 | inserting a stored key is a ValueError that changes nothing; otherwise the key goes into the master table and every part gets its entities' rows |
| ReproFacade.RecordTableFacade.InsertParts | repro/infrastructure/facade.py:42-43 | the loop over the parts inserts every part's rows |
| ReproFacade.RecordTableFacade.InsertPart | repro/infrastructure/facade.py:43 | one part gets its rows and the others are unchanged |
| ReproFacade.RecordTableFacade.Delete | repro/infrastructure/facade.py:14-54 | deleting a key no stored key matches is a KeyError; otherwise the part rows matching the key are removed, then every matching stored key, or an IntegrityError leaves the keys when a part row still refers to one |
| ReproFacade.RecordTableFacade.Fetch | repro/infrastructure/facade.py:56-69 | fetching a key no stored key matches is a KeyError; a TypeError when some matching part row, stripped of the key's items, does not have exactly its part entity's fields; otherwise each attribute holds its part's matching rows, stripped |
| ReproFacade.FetchPartialKey | repro/infrastructure/facade.py:56-67 | fetching a key that leaves out some primary attribute, when a part row matches it, is a TypeError, because the stripped row still holds the attributes the key leaves out |
| ReproFacade.InsertThenFetch | repro/infrastructure/facade.py:32-69 | inserting a record under a new key and fetching it gives the same record back |
| ReproFacade.DeleteThenFetch | repro/infrastructure/facade.py:45-69 | deleting a stored complete key succeeds and removes just that key, and fetching it afterwards is a KeyError |
| ReproFacade.DeletePartialKey | repro/infrastructure/facade.py:52-54 | deleting a key made of some of the primary attributes succeeds and removes exactly the stored keys that extend it |
| CompenvRepository.PersistDists | compenv/adapters/repository.py:39-42 | each distribution is persisted as an entity with its name and version, and nothing else is |
| CompenvRepository.ReconstituteDists | compenv/adapters/repository.py:58-65 | each entity becomes a distribution with its name and version, and nothing else does |
| CompenvRepository.ReconstitutePersisted | compenv/adapters/repository.py:39-65 | persisting and reconstituting are inverse, in both orders |
| CompenvRepository.DJRepository.Add | compenv/adapters/repository.py:25-37 | an identifier the translator never handed out is a KeyError; a stored key is a ValueError naming the identifier; otherwise the record is added; the errors change nothing |
| CompenvRepository.DJRepository.Get | compenv/adapters/repository.py:44-56 | an unknown identifier is a KeyError; a key that no stored key matches is a KeyError naming the identifier; otherwise the record with its reconstituted distributions |
| CompenvRepository.DJRepository.Iter | compenv/adapters/repository.py:67-69 | iteration yields the identifiers of the stored keys, and files each stored key with the translator under its identifier |
| CompenvRepository.DJRepository.Length | compenv/adapters/repository.py:71-73 | the length is the number of stored records |
| CompenvRepository.AddThenGet | compenv/adapters/repository.py:25-56 | adding a record and getting its identifier gives the record back, and adding it again is a ValueError |
| CompenvUnitOfWork.Connection.Start | tests/unit/adapters/test_unit_of_work.py:37-39 | starting a transaction takes a snapshot of the current contents and enters the transaction |
| CompenvUnitOfWork.Connection.Commit | tests/unit/adapters/test_unit_of_work.py:41-42 | committing leaves the transaction, keeps the changes and the snapshot |
| CompenvUnitOfWork.Connection.Rollback | tests/unit/adapters/test_unit_of_work.py:31-47 | a rollback inside a transaction restores the contents from its start, and outside one does nothing |
| CompenvUnitOfWork.UnitOfWork.constructor | compenv/service/abstract.py:96-98 | a unit of work starts outside its scope |
| CompenvUnitOfWork.UnitOfWork.Records | compenv/service/abstract.py:100-105 | the repository is reachable inside the scope, and outside it is a RuntimeError |
| CompenvUnitOfWork.UnitOfWork.Enter | compenv/adapters/unit_of_work.py:16-20 | entering starts a transaction unless one is running, then opens the scope |
| CompenvUnitOfWork.UnitOfWork.Commit | compenv/adapters/unit_of_work.py:22-24 | committing ends the transaction and keeps the contents |
| CompenvUnitOfWork.UnitOfWork.Exit | compenv/service/abstract.py:114-119 | leaving always rolls back, then closes the scope |
| CompenvUnitOfWork.RollsBackByDefault | compenv/service/abstract.py:109-119 | a change made in the scope without a commit is undone on leaving, and the repository is out of reach afterwards |
| CompenvUnitOfWork.CommitKeepsChange | compenv/adapters/unit_of_work.py:22-28 | a committed change survives leaving the scope |
| CompenvUnitOfWork.NestedEntryKeepsSnapshot | compenv/adapters/unit_of_work.py:16-20 | entering a second time keeps the first snapshot |
| CompenvUnitOfWork.SetAttribute | compenv/service/abstract.py:100-105 | assigning to the property with no setter is an AttributeError, and to a plain attribute it succeeds |
| CompenvUnitOfWork.InitAsWrittenFails | compenv/adapters/unit_of_work.py:11-14 | as written, constructing a `DJUnitOfWork` raises an AttributeError |
| CompenvServices.OutputPort.Receive | compenv/service/abstract.py:39 | the output port gets the response appended |
| CompenvServices.RecordService.Execute | compenv/service/record.py:34-38 | the environment is recorded, the trigger runs once, and the environment is recorded again; a raising trigger leaves the tables untouched; otherwise the record taken after the trigger is added with the repository's outcome |
| CompenvServices.RecordService.Call | compenv/service/abstract.py:36-39 | the request is executed, and its response goes to the output port once; an exception reaches the caller and the port gets nothing |
| CompenvServices.DiffOf | compenv/service/diff.py:38-42 | the first KeyError of the two lookups, in order; otherwise whether the two records' distributions differ |
| CompenvServices.DiffIsSymmetricAndIrreflexive | compenv/service/diff.py:42 | a stored record does not differ from itself, and the diff of two stored records does not depend on their order |
| CompenvServices.DiffIffSomeRelease | compenv/service/diff.py:42 | two stored records differ exactly when some name and version is installed in one of them and not in the other |
| CompenvServices.DiffService.Execute | compenv/service/diff.py:38-42 | the diff is that of the two records as the repository holds them |
| CompenvServices.DiffService.Call | compenv/service/abstract.py:36-39 | the diff response goes to the output port, or the KeyError reaches the caller and the port gets nothing |
| CompenvController.DJController.Record | compenv/adapters/controller.py:39-44 | the key is translated and filed, and the record service is called once with its identifier and a trigger that runs `make` on the key |
| CompenvController.DJController.Diff | compenv/adapters/controller.py:46-50 | both keys are translated and filed in order, and the diff service is called once with their identifiers |
| CompenvController.RecordFilesKey | compenv/adapters/controller.py:39-44 | after recording, the identifier translates back to the key; a key whose trigger did not raise is stored |
| CompenvController.DiffWithItself | compenv/adapters/controller.py:46-50 | the diff with itself of a key that some stored key matches, complete or partial, reports no difference |
| CompenvEntrypoint.Entrypoint.Diff | compenv/infrastructure/entrypoint.py:24-26 | the entrypoint's diff is the controller's |
| CompenvEntrypoint.DetermineContext | compenv/infrastructure/entrypoint.py:35-44 | a non-empty context is kept; otherwise the caller's local variables are used; without a frame or a caller it is a RuntimeError with the matching message |
| CompenvEntrypoint.DetermineContextIsStable | compenv/infrastructure/entrypoint.py:35-38 | a context that has been determined is kept as it is when it is determined again |
| CompenvEntrypoint.ReplacedConnectionTable | compenv/infrastructure/entrypoint.py:47-56 | the block sees the replacement connection, and the original connection is restored afterwards, whether or not the block raised |
| ModuleKinds.Dirname | repro/module.py:17 | the directory part is a prefix of the path, and is empty exactly when the path has no slash |
| ModuleKinds.DirnameOfFileInDirectory | repro/module.py:17 | the directory part of a file directly in a directory is that directory |
| ModuleKinds.IsBundled | repro/module.py:14-21 | a module without `__file__` is not bundled; a `None` file is a TypeError; otherwise it is bundled exactly when its directory is the stdlib directory |
| ModuleKinds.IsStdlib | repro/module.py:7-26 | a built-in module belongs to the standard library; otherwise the answer is whether it is bundled |
| ModuleKinds.StdlibModules | repro/module.py:7-26 | a file directly in the stdlib directory is in the standard library, and a non-built-in module without a file is not |
| ModuleConverters.ActiveModulesOf | compenv/adapters/module.py:16-23 | the active modules are exactly the active modules made from every loaded module with a non-empty file |
| ModuleConverters.ActiveModuleConverter.Call | compenv/adapters/module.py:16-23 | the first call converts the loaded modules and each later call gives that same result |
| ModuleConverters.Collect | compenv/adapters/module.py:19-23 | the loop over the loaded modules collects exactly their active modules |
| ModuleConverters.CallsAreMemoised | compenv/adapters/module.py:16 | a module loaded after the first call is not seen by the second |
| ModuleConverters.NonBuiltinModules | repro/adapters/module.py:21-25 | the non-built-in modules are exactly the loaded modules with a `__file__` attribute |
| ModuleConverters.NonNamespaceModules | repro/adapters/module.py:27-31 | the non-namespace modules are exactly those whose `__file__` is not `None` |
| ModuleConverters.ReproActiveModules | repro/adapters/module.py:16-19 | the active modules are exactly the active modules made from every loaded module with a file |
| ModuleConverters.ConvertersDifferOnlyInEmptyFiles | repro/adapters/module.py:16-31 | the two converters differ only in that `repro`'s keeps a module whose file is the empty string |
| DistributionConverters.ActiveFiles | compenv/adapters/distribution.py:92 | the active files are exactly the files of the active modules |
| DistributionConverters.ConvertFilesToModules | compenv/adapters/distribution.py:88-93 | every existing located `.py` file becomes one module, active exactly when its file is an active file, and nothing else does |
| DistributionConverters.OneModulePerFile | compenv/adapters/distribution.py:93 | no file gives two modules |
| DistributionConverters.ConvertDistribution | compenv/adapters/distribution.py:81-86 | the distribution keeps its name and version, with no modules when it has no files and the converted files otherwise |
| DistributionConverters.ConvertedIsActive | compenv/adapters/distribution.py:81-93 | a converted distribution is active exactly when one of its existing `.py` files is an active file |
| DistributionConverters.InstalledDistributionConverter.Call | compenv/adapters/distribution.py:73-79 | the first call converts every installed distribution and nothing else, and each later call gives that same result |
| DistributionConverters.ConvertAll | compenv/adapters/distribution.py:76-79 | the loop converts exactly the given distributions |
| DistributionConverters.InstalledCallsAreMemoised | compenv/adapters/distribution.py:73 | two calls give the same result even if the installed distributions change between them |
| DistributionConverters.ConvertToFiles | repro/distribution.py:18-19 | a distribution keeps its name and version, with the located files as strings, or none when it has no files |
| DistributionConverters.ByName | repro/distribution.py:16-21 | the result is keyed by exactly the names of the installed distributions |
| DistributionConverters.LaterDistributionWins | repro/distribution.py:20 | under a name is the last distribution with that name |
| DistributionConverters.NamedDistributionConverter.Call | repro/distribution.py:13-21 | the first call builds the dictionary by name, and each later call gives that same result |
| Paths.Name | compenv/adapters/distribution.py:89 | the name of a path is its last part, or empty for an anchor |
| Paths.Parent | repro/hierarchy.py:37-49 | the parent is the path without its name, and an anchor is its own parent |
| Paths.Suffix | compenv/adapters/distribution.py:89 | the suffix is the name from its last dot, when the dot is neither first nor last |
| Paths.StemAndSuffix | repro/hierarchy.py:47 | stem and suffix make up the name |
| Paths.ParseStr | repro/hierarchy.py:47 | `Path(str(p))` is `p` |
| Paths.PathLtIsStrictTotalOrder | repro/model/record.py:87 | paths are ordered strictly and totally by their parts |
| Ordering.OrderedListingIsUnique | compenv/model/record.py:34 | a sorted listing of a collection is unique |
| Text.SplitJoin | compenv/model/record.py:34 | splitting at the separator gives back the parts joined by it, when no part holds the separator |
| Text.DedentLines | compenv/model/record.py:54-59 | `textwrap.dedent` removes the common margin of the non-blank lines and clears the blank ones |

## Left out

- The network, the file system, `sys.modules`, `importlib.metadata`, `inspect.currentframe` and DataJoint's server are not modelled. What the core reads from them is a parameter or a field: the loaded modules, the installed distributions, `locate` and `exists` of paths, the frames, and the tables' contents.
- `warnings.warn` is a ghost log of warnings on the computation.
- A trigger is modelled by its effect on the world and by whether it raises. What it computes is not modelled.
- `blake2b` and the JSON text are not modelled. The digest is an injected function of the sorted items of a key.
- Floats and ints as key values are not modelled: key values are strings.
- Python's iteration order of sets and dictionaries is not modelled. Everything iterated over is a set, so the renderings are modelled only after sorting.
- `__repr__` methods, `create_request` and the service registry of the sources are not modelled.
- `Service.__init_subclass__` is not modelled: it is a class-definition time check without runtime data.
- Mutation of the dictionary returned by `to_external` is not modelled: keys are values.
- `DJTableFactory.__call__` (compenv/infrastructure/table.py:91-106) is not modelled beyond the empty tables it produces. It creates DataJoint classes at run time.
- `EnvironmentRecorder` and `hook_into_make_method` (compenv/infrastructure/entrypoint.py:59-86) are not modelled. Their effect, a call of `controller.record` with the key and `make` around each `make` call, is `CompenvController.DJController.Record`. DataJoint's schema decoration is not part of this model.
- `DJComputationRegistryRepository` and `ComputationRegistryTracker` (compenv/adapters/repository.py:80-118) are not modelled: their methods have no bodies.
- Several import mismatches are resolved by modelling the shapes that are evidently meant:
  - compenv/adapters/repository.py imports `ComputationRecord` from `model.record`, and names from `model.computation` that the latter does not define. The repository sees a computation record as an identifier with a set of `Distribution(name, version)`.
  - compenv/adapters/distribution.py imports `Module`, `Modules` and `ActiveModules`, which the shown compenv/model/record.py lacks. It also builds `Distribution(..., modules=...)`, which that class does not accept. The converters are modelled over the `Module` and `Distribution` of repro/model/record.py.
  - repro/distribution.py passes sets of file strings where repro/model.py's `Distribution` holds modules. It is modelled with a sibling datatype whose third field is a set of strings.
  - compenv/service/record.py imports `Computation` from compenv/model/computation.py, which defines only `ComputationRecord`, and calls the `Environment()` of compenv/model/environment.py, a frozen dataclass of distributions without `record()` or `consistency_check()`. The record service is modelled with `ReproModel.Computation` and `ReproModel.Environment`, whose record is a set of `Distribution(name, version)`.
  - repro/service/record.py imports `model.computation` and `model.environment`, which repro/model does not have: it has only model.py and record.py. The use case is modelled with the `Computation` and `Environment` of repro/model/model.py.
  - The imports of repro/infrastructure/facade.py do not match the repro adapters that are shown. The facade is modelled over its own record datatype: a key and, per attribute, a set of entity dictionaries.
- In repro/infrastructure/facade.py an entity is its dictionary of attributes. `dataclasses.asdict(e)` is the identity on it. `entity_cls(**e)` is the identity on a dictionary with exactly the entity's fields, and a TypeError on any other (ReproFacade.MakeEntity).
- CompenvFacade.DJTableFacade.Add: the part loop of compenv/infrastructure/facade.py:48-51 has one part, `Distribution`, so it is one insertion.
- CompenvFacade.Entities: a part row lacking a field would make `from_mapping` raise. Valid tables never hold one, so such a row is dropped instead.
- CompenvController.DJController.Record, CompenvServices.RecordService.Execute, CompenvServices.RecordService.Call, CompenvRepository.DJRepository.Add, CompenvFacade.DJTableFacade.Add, DataJoint.Tables.Insert1 and the `Fits` predicate of ReproFacade.RecordTableFacade.Insert require that the key has all the table's primary attributes. DataJoint itself rejects inserting a partial key, and that failure is not modelled.
- DataJoint.Tables.DeleteMaster: the refusal of a deletion that a part row's foreign key blocks is modelled as an IntegrityError that removes nothing. It cannot happen for a key made of primary attributes: once the matching part rows are gone, no row refers to a matching key.
- Paths.PathLt: the order is that of `PurePath.__lt__` up to Python 3.11, which compares the `parts` tuples with the root as `/` or `//`. From Python 3.12, paths compare by their string split at `/`, with the root as an empty string. The two orders differ when absolute and relative paths, or a `//` root, are mixed. This order feeds `sorted(self.modules)` in repro/model/record.py:87.
- The key text in the facades' error messages is an injected function. Python's `repr` of a dictionary is not modelled.
- ModuleConverters.ActiveModuleConverter.Call: in `repro`'s version (repro/adapters/module.py:16-19) the memo is not modelled separately. It is the same cache as the `compenv` version, over `ReproActiveModules`.
- The `get_active_modules` that `InstalledDistributionConverter` calls is a fixed set of modules, because it is itself memoised.
- Each `Module` path is `Paths.Parse` of the file string. Platform-specific paths, such as Windows drives, are not modelled.
- The stdlib directory of `is_bundled_module` (repro/module.py:20) is a parameter, because it is built from `sys.prefix` and the interpreter version.
- CompenvEntrypoint.ReplacedConnectionTable: the block is modelled as a function of the connection the table class has while it runs.

## Findings

| source | as written | input that shows it | evidently intended | confidence | as-written member | corrected member |
|---|---|---|---|---|---|---|
| repro/model/model.py:66-68 | `Environment.record()` calls `Record(installed_distributions=..., active_distributions=..., active_modules=...)`, but the `Record` dataclass of repro/model/record.py:14-19 has only `installed_distributions` and `active_modules` | any environment, for example no distributions and no modules: the call raises TypeError for the unexpected keyword `active_distributions` | a record of the installed distributions and the active modules; the active distributions are derivable from it through `InstalledDistributions.active` (`ReproModel.ActiveDistributionsAreActive`) | high (not executed) | ReproModel.EnvironmentRecordAsWrittenFails | ReproModel.ExecuteRecordedComputation |
| compenv/adapters/unit_of_work.py:11-14 | `DJUnitOfWork.__init__` assigns `self.records = records`, but `records` is a property of `UnitOfWork` with no setter (compenv/service/abstract.py:100-105), and it never sets `_in_context` | constructing `DJUnitOfWork(connection, records)` with any arguments raises AttributeError | store the repository in `_records` and start outside the scope, as `UnitOfWork.__init__` does | high (not executed) | CompenvUnitOfWork.InitAsWrittenFails | CompenvUnitOfWork.RollsBackByDefault |
