# Litestar, verified models

A Dafny model of the parts of Litestar that carry the most logic, with proofs of what
they are for. `dafny verify dfyconfig.toml` checks all of it.

| modules | what they model |
|---|---|
| `TransferTypes`, `TransferInterpreter`, `TransferMeaning` | the tree of transfer types, the DTO backend that interprets it, and what comes out field by field and class by class |
| `GeneratedCode`, `TransferCompiler`, `TransferFactory`, `GeneratedText` | the Python fragment that the code-generating backend emits and what it means; the compiler as a function; the factory that appends line after line, and the text it writes |
| `DirectMeaning`, `CompilerCorrectness`, `NameHygiene` | what generated code computes, for all trees, values and exceptions, and which names it assigns to |
| `GenerationDomain`, `DefaultDepth`, `ParsedTrees` | for which trees a function is generated, and what parsing guarantees |
| `BackendAgreement`, `BackendDifference`, `FaithfulAgreement`, `RaisedErrors`, `AnnotationDifference`, `BackendExamples` | trees and sources on which the two backends agree for all classes; exactly when they agree on models and on whole annotations, exceptions included; the differences on concrete inputs |
| `FieldPaths`, `DtoParsing`, `NestedFields`, `MarkedFields` | unfolding models into transfer types to a bounded depth, with include, exclude and rename paths peeled on the way, and what marks keep from being returned |
| `DependencyGraph`, `DependencyResolution`, `DependencyCleanup` | batching the dependency graph, running the batches concurrently, closing generators |
| `Channels`, `Subscribers`, `ChannelStreams` | publish/subscribe bookkeeping against the backend, bounded queues with two overflow policies, and both in one run |
| `Lifespan` | exit stack and ASGI messages of an application's life |
| `Paths`, `Layers`, `RouterTree` | path joining, merging of layered options, flattening of nested routers |
| `OpenApiComponents`, `SchemaRegistry` | names of OpenAPI components, and the registry of schemas and references |
| `FileStreaming` | ranged reads, at once and in chunks, of three file-system wrappers |
| `AcceptHeader`, `Cookies`, `ParameterSets` | content negotiation, reassembled cookie headers, merging of expected parameters |
| `Outcomes`, `Strings` | options, results, and the exceptions that are told apart; splitting and joining strings |

Code that works step by step (the factory, the batching loop, the channels plugin, the
subscriber, the clean-up group, the lifespan, the schema registry, the read loops, the
sorted `Accept` list, the cached cookies) is modelled by classes and methods with loops,
each tied by its contract to a function or relation whose properties are lemmas. Trees and
pure recursions are datatypes and functions. Constructors, providers, unquoting, the
quality parameter and the outcome of hooks are unknown functions or parameters, so that
the theorems hold for all of them.

## What the proofs bring to light

Where the code does not do what it seems meant to do, the model keeps the code's
behaviour, shows an input, and says exactly when all is well.

- The two DTO backends can differ on fields that are absent (return data: the interpreter
  raises, generated code skips them; incoming data: generated code makes up instances of
  models without fields), on unions with composite members or members without fields, on
  models within a union member below a `dict` destination, and on mappings whose values are
  collections, as generated code takes the key's type argument for the value's.
  `AgreementIsExact` gives the exact condition on the source, for trees and annotations of
  any kind; `DifferentReadingsDiffer` adds that every annotation in which keys and values
  are not read alike has a source on which they do differ.
- A nested source two accesses deep is hoisted into a name that is no identifier, so that
  no function can be compiled. `DataDomain` gives the exact domain; the default depth of 1
  lies within it (`GeneratesAtDefaultDepth`).
- A subscribe call that names an unknown channel leaves earlier channels with a listener
  that the backend does not know of (`FailedSubscribe`, an equivalence).
- The docstrings of `read_bytes` and `iter` call `end` inclusive; all loops treat it as
  exclusive. With `end` one before `start` the local `read_bytes` returns everything after
  `start` (`ReadsOnPastEnd`), and with `end` further back it raises ValueError
  (`NegativeLengthRaises`), while `iter` yields nothing. `LocalBytesRaises` and
  `LocalBytesIsRange` give the exact conditions.
- An exception outside `Exception`, such as a cancellation, that one generator dependency
  gives back is never thrown into the generators behind it (`CancellationStopsThrowing`;
  `AllReachedIff` gives the exact condition).
- OpenAPI names can collide when a key contains an underscore (`UnderscoresCollide`;
  `CollideIff` gives the exact condition), and do when two groups of keys each have one
  that begins all the others (`NamesDifferIff`).
- `merge_parameter_sets` depends on grouping exactly when an alias is both required and
  optional within one set (`AssociatesIff`; `OrderCountsOutOfNormalForm` shows one).
- `unsubscribe` waits on a full `backoff` queue before it tells the backend anything, and
  goes on only when the subscriber takes an event (`WaitsForOneGet`, an equivalence). A
  subscriber that joins a channel which is being left meanwhile hears nothing of it
  (`OverlappingSubscribe`, an equivalence).
- The docstring of `Litestar.lifespan` ties the hooks to the time between start-up and
  shutdown. The `on_shutdown` hooks also run when start-up failed, after everything that
  was entered is closed (`EverythingIsClosed`).

## Model

| member | source | states |
|---|---|---|
| `TransferInterpreter.RunTransferInstance` | litestar/dto/_backend.py:637-687 | the loop over the fields, with its early exits, is the recursive interpreter on every tree, destination and source, exceptions included |
| `TransferInterpreter.RunTransferUnion` | litestar/dto/_backend.py:757-780 | the loop over the members is the recursive interpreter of unions: the first nested member that fits decides, a composite one raises |
| `TransferTypes.GetFieldFailsWithAccessError` | litestar/dto/_codegen_backend.py:265-306 | a failed read raises just the exception that generated code catches for that kind of source |
| `TransferMeaning.NestedIsBuilt` | litestar/dto/_backend.py:690-712 | a nested model becomes a plain dict below a dict, an instance of its own class when data comes in, and of its transfer model when data is returned, exceptions included |
| `TransferMeaning.MemberIsBuilt` | litestar/dto/_backend.py:757-780 | the first nested member that the value is an instance of decides, by its transfer model on the way in and by its class on the way out, and the value becomes an instance of the other, never a dict |
| `TransferMeaning.UndecidedUnion` | litestar/dto/_backend.py:757-780 | if no member decides the value is handed on, and a composite member that is got to raises RuntimeError |
| `TransferMeaning.BuiltMemberComesBack` | litestar/dto/_backend.py:757-780 | where instances know their class, what one direction builds for a union member passes the other direction's test |
| `TransferMeaning.EntriesOfFields` | litestar/dto/_backend.py:637-687 | the dict has an entry for just those fields that are not omitted: absent or UNSET in incoming data, excluded from what is returned; and each entry is the transferred value |
| `TransferMeaning.FieldsFail` | litestar/dto/_backend.py:637-687 | the transfer of the fields returns if and only if every field that is not omitted can be read and transferred |
| `TransferMeaning.FieldsInOrder` | litestar/dto/_backend.py:637-687 | fields are transferred one after the other in their order |
| `TransferMeaning.PutMeans` | litestar/dto/_backend.py:676-687 | storing an entry keeps all others, and puts a new key last |
| `TransferMeaning.ByAnnotation` | litestar/dto/_backend.py:690-754 | only what holds models is taken apart; other collections and mappings are converted, and the rest is handed on |
| `TransferMeaning.ItemsOneByOne` | litestar/dto/_backend.py:722-736 | the items of a collection are transferred one by one, in order |
| `TransferMeaning.ValuesOneByOne` | litestar/dto/_backend.py:738-753 | the values of a mapping are transferred one by one and stay under their keys |
| `TransferMeaning.ModelsAreBuilt` | litestar/dto/_backend.py:579-634 | models are built below a plain annotation, in every item of an annotated collection, and in every value of an annotated mapping |
| `GeneratedCode.ExecConcat` | litestar/dto/_codegen_backend.py:240-262 | appending statements to the body runs them after it, unless it raised |
| `TransferCompiler.FreshIndex` | litestar/dto/_codegen_backend.py:210-213 | the search for a name ends, at the least index not in use |
| `CompilerCorrectness.GuardCorrect` | litestar/dto/_codegen_backend.py:254-306 | the guard around an access runs its block, skips it, or swallows exactly the one access error |
| `CompilerCorrectness.PartialBlockCorrect` | litestar/dto/_codegen_backend.py:476-497 | the block of a partial data field skips UNSET and leaves the enclosing dict untouched when it raises |
| `CompilerCorrectness.FieldCorrect` | litestar/dto/_codegen_backend.py:466-497 | what is emitted for one field fills the dict as the field's meaning says and changes no other name in use |
| `CompilerCorrectness.FieldsCorrect` | litestar/dto/_codegen_backend.py:466-497 | the same for all fields of a model, in order |
| `CompilerCorrectness.ReadsCorrect` | litestar/dto/_codegen_backend.py:426-458 | hoisting a nested source into a name of its own and reading the fields by key or by attribute gives the same dict as reading them from the source |
| `CompilerCorrectness.InstanceCorrect` | litestar/dto/_codegen_backend.py:415-464 | the block for a model delivers the built instance, or the exception, to its target; of the names in use it changes the target only, and nothing if it raises |
| `CompilerCorrectness.TypeCorrect` | litestar/dto/_codegen_backend.py:499-565 | compiler correctness for every transfer type, source expression, target and environment; of the names in use the block changes its target at most |
| `CompilerCorrectness.MembersCorrect` | litestar/dto/_codegen_backend.py:567-652 | the if/elif chain picks the first tested union member that fits |
| `CompilerCorrectness.UnionCorrect` | litestar/dto/_codegen_backend.py:567-652 | the code for a union, with its else branch, computes the union's meaning |
| `CompilerCorrectness.TypeFunctionCorrect` | litestar/dto/_codegen_backend.py:334-354 | a generated function called for the items of a collection or mapping computes the meaning of the item type |
| `CompilerCorrectness.InstanceFunctionCorrect` | litestar/dto/_codegen_backend.py:309-332 | a generated instance function, called on any value, computes its meaning |
| `CompilerCorrectness.DataFunctionCorrect` | litestar/dto/_codegen_backend.py:356-413 | the whole generated transfer function computes its meaning, for annotations of any shape |
| `CompilerCorrectness.GenTypeNames` | litestar/dto/_codegen_backend.py:205-213 | the names in use only grow while code is generated, so that none is handed out twice |
| `NameHygiene.BlockLeaves` | litestar/dto/_codegen_backend.py:240-262 | running a block, whether it raises or not, leaves alone every name that no statement in it assigns to |
| `NameHygiene.InstanceOwns` | litestar/dto/_codegen_backend.py:415-464 | the block for a model assigns to its target and to names not in use before and in use after, and to no others |
| `NameHygiene.TypeOwns` | litestar/dto/_codegen_backend.py:499-565 | the same for every transfer type, unions included |
| `NameHygiene.TypeLeavesOthers` | litestar/dto/_codegen_backend.py:205-213 | so running it leaves every other name alone, in use beforehand or not |
| `GenerationDomain.InstanceDomain` | litestar/dto/_codegen_backend.py:426-441 | which source depths and field counts the hoisting can deal with |
| `GenerationDomain.HoistedNames` | litestar/dto/_codegen_backend.py:427-441 | one access, or two by item, are hoisted under a name, and two with an attribute among them are not |
| `GenerationDomain.DataDomain` | litestar/dto/_codegen_backend.py:356-413 | a function is generated if and only if the tree meets a static condition on depth and unions |
| `BackendAgreement.FieldAgrees` | litestar/dto/_backend.py:637-687 | field by field the meaning of the generated code is what the interpreter does, absent and UNSET fields included |
| `BackendAgreement.TypeAgrees` | litestar/dto/_backend.py:690-754 | the same for every supported transfer type |
| `BackendAgreement.UnionAgrees` | litestar/dto/_backend.py:757-780 | the same for unions of simple members |
| `BackendAgreement.GeneratedCodeRefinesInterpreter` | litestar/dto/_codegen_backend.py:154-175 | for any classes and supported trees the generated function returns, or raises, exactly what the interpreting backend does, unless a field access of the latter fails |
| `BackendAgreement.GeneratedCodeReadsByKey` | litestar/dto/_codegen_backend.py:389-413 | for mappings in the annotation, generated code is the interpreter at the shape that reads values like keys |
| `BackendDifference.AbsentFieldExact` | litestar/dto/_backend.py:666-674 | of an absent field the two backends make the same if and only if it is incoming data and generated code notices the absence |
| `BackendDifference.AbsentOptionalField` | litestar/dto/_codegen_backend.py:265-306 | an absent field that is partial or annotated with None is passed over by generated code, whatever its type |
| `BackendDifference.MembersExact` | litestar/dto/_codegen_backend.py:567-652 | from any member of a union on, generated code returns what the interpreter does if and only if the condition on members holds |
| `BackendDifference.MembersFaithfulIff` | litestar/dto/_backend.py:757-780 | that condition without recursion: behind members that both backends pass over, a nested member with fields fits and is faithful, or there is no other member; a composite member is never passed over, nor in a mixed union a plain one that fits, nor one without fields that fits |
| `BackendDifference.UnionExact` | litestar/dto/_codegen_backend.py:567-652 | the same for whole unions, composite members, members without fields and members below a dict included |
| `BackendDifference.OneComposite` | litestar/dto/_codegen_backend.py:605-652 | a union counts as having one composite member if and only if there is exactly one, wherever it stands |
| `BackendDifference.NestedExact` | litestar/dto/_codegen_backend.py:499-525 | a nested model comes out the same only if both backends build it as a dict or neither does |
| `BackendDifference.TypeExact` | litestar/dto/_codegen_backend.py:499-565 | for classes that keep their arguments apart and every source of the annotated kind, any transfer type is transferred alike if and only if the condition on the source holds |
| `BackendDifference.InstanceExact` | litestar/dto/_codegen_backend.py:309-332 | the same for a model: every field read is there and faithful, or missed by both backends |
| `FaithfulAgreement.TypeAlike` | litestar/dto/_codegen_backend.py:499-565 | where the condition on the source holds, any transfer type is transferred alike, exceptions included, for all classes that raise neither KeyError nor AttributeError |
| `RaisedErrors.TransferTypedRaises` | litestar/dto/_backend.py:690-754 | if no class raises, incoming data of the annotated kind can make the interpreter raise RuntimeError only, and return data KeyError and AttributeError besides |
| `RaisedErrors.DirectTypeRaises` | litestar/dto/_codegen_backend.py:499-565 | if no class raises, the meaning of generated code can raise TypeError and AttributeError only, on any source |
| `AnnotationDifference.AgreementIsExact` | litestar/dto/_codegen_backend.py:356-413 | for annotations of any shape and every source of the annotated kind, the generated function agrees with the interpreter if and only if mapping values read by key are the same on this source, and all that is read is faithful; but for return data that fails in both respects, with AttributeError in both backends |
| `AnnotationDifference.AgreeableSourcesAgree` | litestar/dto/_codegen_backend.py:154-175 | the condition suffices for all classes that raise neither KeyError nor AttributeError and for all sources: results and exceptions are equal |
| `AnnotationDifference.DataDiffers` | litestar/dto/_codegen_backend.py:389-413 | where reading mapping values by key makes a difference, the results differ whenever the interpreter returns |
| `AnnotationDifference.DifferentReadingsDiffer` | litestar/dto/_codegen_backend.py:389-413 | every annotation in which some mapping's values are not read like its keys has a source, which is given, on which the backends differ |
| `AnnotationDifference.ReadsAsEverywhere` | litestar/dto/_codegen_backend.py:389-413 | and if there is no such mapping, no source shows a difference between the readings |
| `BackendExamples.RecordingIsFree` | litestar/dto/_backend.py:637-687 | the assumptions of the two theorems on classes can be met |
| `BackendExamples.AbsentFieldOfReturnData` | litestar/dto/_backend.py:666-674 | a concrete input on which the interpreter raises KeyError and generated code skips the field |
| `BackendExamples.AbsentFieldOfEmptyModel` | litestar/dto/_codegen_backend.py:423-464 | a concrete input for which generated code makes up an instance that was not sent |
| `BackendExamples.NestedModelBothWays` | litestar/dto/_backend.py:698-703 | a DTO with a nested model whose class and transfer model differ: both backends build the class from incoming data and the transfer model from return data |
| `BackendExamples.UnionMemberWithoutFields` | litestar/dto/_codegen_backend.py:573-597 | a DTO with a field `Optional[B]`, whose B without fields the interpreter rebuilds and the generated function passes on |
| `BackendExamples.UnionMemberBelowDict` | litestar/dto/_codegen_backend.py:499-525 | a DTO with a field `Optional[B]` made into a dict: the generated function makes dicts of the models within the B, the interpreter instances |
| `BackendExamples.UnionWithCompositeMember` | litestar/dto/_backend.py:757-780 | a DTO with a field `Union[list[int], B]`: on a list the interpreter raises RuntimeError and the generated function hands the list on |
| `BackendExamples.MappingToCollections` | litestar/dto/_codegen_backend.py:389-413 | for dict[str, list[A]] the generated function takes every list for an A |
| `BackendExamples.AttributeErrorsCoincide` | litestar/dto/_codegen_backend.py:389-413 | for dict[str, dict[str, A]] concrete return data on which both backends raise AttributeError, each in its own way |
| `BackendExamples.TwoLevelsAreNotHoisted` | litestar/dto/_codegen_backend.py:427-441 | two levels of nesting for which no function can be generated |
| `GeneratedText.ParsePrint` | litestar/dto/_codegen_backend.py:215-262 | reading back the lines written for a well-formed block gives the block, whatever follows it |
| `TransferFactory.TransferFunctionFactory.CreateLocalName` | litestar/dto/_codegen_backend.py:210-213 | a name not in use is taken and recorded, so names are never reused |
| `TransferFactory.TransferFunctionFactory.StartAccess` | litestar/dto/_codegen_backend.py:264-306 | the opening line of a guarded access, with its indentation |
| `TransferFactory.TransferFunctionFactory.EndAccess` | litestar/dto/_codegen_backend.py:254-306 | the closing lines of a guarded access |
| `TransferFactory.TransferFunctionFactory.CreateTransferInstanceData` | litestar/dto/_codegen_backend.py:415-464 | what the factory appends is the text of the compiled block, with the names and the indentation that go with it |
| `TransferFactory.TransferFunctionFactory.CreateTransferInstanceDataInner` | litestar/dto/_codegen_backend.py:466-497 | the same for the loop over the fields |
| `TransferFactory.TransferFunctionFactory.CreateTransferTypeDataBody` | litestar/dto/_codegen_backend.py:499-565 | the same for a transfer type |
| `TransferFactory.TransferFunctionFactory.CreateTransferNestedUnionTypeData` | litestar/dto/_codegen_backend.py:567-652 | the same for a union |
| `TransferFactory.TransferFunctionFactory.CreateMemberTests` | litestar/dto/_codegen_backend.py:605-643 | the same for the chain of tests of a union |
| `TransferFactory.TransferFunctionFactory.MakeFunction` | litestar/dto/_codegen_backend.py:215-238 | if what was written so far is the text of a block, the function has that block for its body |
| `TransferFactory.TransferFunctionFactory.CreateTransferTypeData` | litestar/dto/_codegen_backend.py:334-354 | the function made for the items of a collection is the compiled one |
| `TransferFactory.TransferFunctionFactory.CreateTransferInstanceFunction` | litestar/dto/_codegen_backend.py:309-332 | the function made for a model is the compiled one |
| `TransferFactory.TransferFunctionFactory.CreateTransferData` | litestar/dto/_codegen_backend.py:356-413 | the function made for an annotation of any shape is the compiled one |
| `TransferFactory.TransferFunctionFactory.CreateTransferDataFn` | litestar/dto/_codegen_backend.py:154-175 | from the imperative factory to the interpreter: a function is made exactly on the static domain; on supported trees it does what the interpreter does for every value without access errors; for classes without access errors it does so on every source that meets the condition, and for classes that keep their arguments apart exactly there, as AgreementIsExact says |
| `DtoParsing.RunParseModel` | litestar/dto/_backend.py:126-177 | the loop of parse_model ends for self-referential models and makes the unfolding to the depth limit |
| `DtoParsing.DepthIsBounded` | litestar/dto/_backend.py:398-443 | no chain of nested models in the result is longer than max_nested_depth |
| `DtoParsing.LeftOutAtTheLimit` | litestar/dto/_backend.py:398-443 | a field is left out if and only if the limit is reached and its annotation mentions a model |
| `FieldPaths.FilterIsPeel` | litestar/dto/_backend.py:565-576 | filtering dotted names takes the proper continuations of one segment |
| `FieldPaths.PeelPeel` | litestar/dto/_backend.py:565-576 | peeling segment by segment is peeling the whole path at once |
| `FieldPaths.DecimalIsNumeral` | litestar/dto/_backend.py:446-563 | positions in composite types make different path segments, as the number can be read back |
| `FieldPaths.ExcludedByPathMeans` | litestar/dto/_backend.py:904-927 | the test on peeled names is the global rule on whole paths |
| `NestedFields.PresentWithinDepth` | litestar/dto/_backend.py:126-177 | a place in the models is in the result if and only if it lies within the depth limit |
| `NestedFields.ParsedByGlobalRule` | litestar/dto/_backend.py:126-177 | a field at any depth carries what its definition says, and its exclusion and renaming follow from its whole path and its mark |
| `NestedFields.MarksDecide` | litestar/dto/_backend.py:904-927 | at any place, what is private is excluded both ways, what is read-only from incoming data, and what is write-only from return data; for the rest the path decides alone |
| `NestedFields.AnnotationIsKept` | litestar/dto/_backend.py:398-443 | the annotation can be read back from the transfer type made of it |
| `DtoParsing.ParseOfBoth` | litestar/dto/_backend.py:126-177 | fields come in the order of their definitions |
| `MarkedFields.HiddenIsNotReturned` | litestar/dto/_backend.py:637-687 | nothing that is returned of a model, at any depth, has an entry for a write-only or private field of it |
| `MarkedFields.PasswordIsNotReturned` | litestar/dto/_backend.py:904-927 | a concrete write-only field, taken in and never given out |
| `NestedFields.ReachableByGlobalRule` | litestar/dto/_backend.py:565-576 | peeling per level equals one predicate on dotted paths, for every place in the models |
| `DefaultDepth.GeneratesAtDefaultDepth` | litestar/dto/_codegen_backend.py:427-441 | at the default depth of 1 every supported model gets its generated function, as hoisting yields an identifier |
| `ParsedTrees.ParsedIsProper` | litestar/dto/_backend.py:126-177 | every tree that is parsed from models with distinct field names is one that the theorems on agreement speak of |
| `ParsedTrees.SimpleIsSupported` | litestar/dto/_codegen_backend.py:499-565 | trees whose models each have a field that is not excluded, and whose unions hold no models, are supported |
| `DependencyGraph.KeyDeterminesTree` | litestar/_kwargs/dependencies.py:31-36 | where equal keys have children with equal keys, as equality by key presumes, equal keys have equal trees |
| `DependencyGraph.NoKeyBelowItself` | litestar/_kwargs/dependencies.py:31-36 | so no key occurs below a container of that key |
| `DependencyGraph.MapDependenciesRecursively` | litestar/_kwargs/dependencies.py:107-119 | the depth-first search records every key it adds with exactly its children, and all keys below it |
| `DependencyGraph.FlattenDependencies` | litestar/_kwargs/dependencies.py:84-87 | together the searches reach everything below the expected dependencies |
| `DependencyGraph.TakeBatch` | litestar/_kwargs/dependencies.py:89-104 | one round of the destructive loop takes out exactly one level, and the dict shrinks |
| `DependencyGraph.RemoveBatch` | litestar/_kwargs/dependencies.py:97-100 | deleting the finished keys one by one takes them out of the dict and of every remaining set |
| `DependencyGraph.LayerDependencies` | litestar/_kwargs/dependencies.py:89-104 | the loop ends, and its batches are the levels of the graph by longest chain |
| `DependencyGraph.CreateDependencyBatches` | litestar/_kwargs/dependencies.py:75-104 | the batches are the levels of all that is reachable from the expected dependencies |
| `DependencyGraph.BatchesPartition` | litestar/_kwargs/dependencies.py:75-104 | every reachable key is in exactly one batch, its dependencies in strictly earlier ones |
| `DependencyGraph.BatchesAreFewest` | litestar/_kwargs/dependencies.py:75-104 | no schedule that respects the dependencies has fewer slots than there are batches |
| `DependencyGraph.CreateDependencyGraph` | litestar/_kwargs/kwargs_model.py:481-491 | the graph of a provider has a child for each of its fields that is a dependency, down to the leaves |
| `DependencyGraph.GraphsAreConsistent` | litestar/_kwargs/kwargs_model.py:481-491 | graphs made of one dict of providers give equal keys equal children, so that they can be scheduled |
| `DependencyResolution.SolutionIsEvaluation` | litestar/_kwargs/dependencies.py:39-72 | values that fit the graph are those of the recursive evaluation |
| `DependencyResolution.AnyInterleaving` | litestar/_kwargs/kwargs_model.py:458-478 | however the tasks of a batch are interleaved, they leave the same arguments |
| `DependencyResolution.AnyInterleavingCalls` | litestar/_kwargs/kwargs_model.py:458-478 | and each provider of the batch is called once, with what the batch began with |
| `DependencyResolution.SomeInterleaving` | litestar/_kwargs/kwargs_model.py:467-476 | every batch has an interleaving |
| `DependencyResolution.BatchesResolve` | litestar/_kwargs/kwargs_model.py:458-478 | over all batches and interleavings every provider is called exactly once, with just those of its fields that are dependencies, each with its value, or arguments of the request; the final arguments hold what it returned and do not depend on the order |
| `DependencyResolution.SettingIsValid` | litestar/_kwargs/kwargs_model.py:481-491 | the recursive evaluation solves the graph of any consistent set of expected dependencies |
| `DependencyResolution.ExpectedIsEvaluated` | litestar/_kwargs/kwargs_model.py:458-478 | an expected dependency ends up with the value of its own recursive evaluation |
| `DependencyResolution.MadeGraphs` | litestar/_kwargs/kwargs_model.py:481-491 | graphs made of providers satisfy what scheduling and resolution ask of them |
| `DependencyResolution.RunBatch` | litestar/_kwargs/kwargs_model.py:467-476 | a task group that picks any ready task stores what each provider makes of the arguments before the batch, and registers each generator of the batch once |
| `DependencyResolution.ResolveDependencies` | litestar/_kwargs/kwargs_model.py:458-478 | the loop over the batches adds the recursive evaluation of the graph to the arguments, where each value is what its provider makes of the values of its sub-dependencies and of the request; it returns an open group of all generators among the dependencies, each once |
| `DependencyResolution.StartTask` | litestar/_kwargs/dependencies.py:56-72 | a provider is called with just those of its fields that are among the arguments so far, and its generator, if it is one, added to the group |
| `DependencyResolution.EachGeneratorAdvancedOnce` | litestar/_kwargs/cleanup.py:77-95 | cleaning such a group up, when nothing raises, advances each generator among the dependencies exactly once and no other |
| `DependencyCleanup.DependencyCleanupGroup.Add` | litestar/_kwargs/cleanup.py:39-50 | a closed group takes no generator, an open one appends it |
| `DependencyCleanup.DependencyCleanupGroup.Close` | litestar/_kwargs/cleanup.py:66-75 | a group closes once; it then cleans up or throws, as below |
| `DependencyCleanup.DependencyCleanupGroup.Cleanup` | litestar/_kwargs/cleanup.py:77-95 | no generator is advanced twice; it ends quietly only if each is advanced once and none raises an ordinary exception, and otherwise with the exception of the only generator, or with exceptions of generators that were advanced |
| `DependencyCleanup.CleanUpFailsIff` | litestar/_kwargs/cleanup.py:77-95 | when all that is raised is ordinary, clean-up fails if and only if some generator raises |
| `DependencyCleanup.DependencyCleanupGroup.ThrowAll` | litestar/_kwargs/cleanup.py:111-134 | the exception goes into the generators in order, up to the first answer that `except Exception` does not catch, which leaves at once; if there is none, the answers that neither end it nor give it back are reported |
| `DependencyCleanup.AllReachedIff` | litestar/_kwargs/cleanup.py:111-134 | every generator is thrown into if and only if none ahead of the last answers with an exception that is not caught |
| `DependencyCleanup.ThrowingLeavesAt` | litestar/_kwargs/cleanup.py:111-134 | the first answer that is not caught is raised, and the generators behind it are not thrown into |
| `DependencyCleanup.ThrowingReports` | litestar/_kwargs/cleanup.py:111-134 | if all answers are caught, just the exceptions other than the one thrown in are reported, and nothing if there are none |
| `DependencyCleanup.CancellationStopsThrowing` | litestar/_kwargs/cleanup.py:111-134 | a concrete cancellation that the first of two generators lets pass and the second never sees |
| `Subscribers.QueueKeepsOrder` | litestar/channels/subscriber.py:21-59 | in every interleaving of puts and gets the backlog limit holds; a dropleft queue is a suffix of all that was put, and what was consumed a selection, in order, of what came before it; for backoff consumed-then-queued is what was accepted, a selection of what was put, and without a limit all of it |
| `Subscribers.EveryRunKeepsOrder` | litestar/channels/subscriber.py:21-59 | the same from an empty queue, for every run |
| `Subscribers.PutByStrategy` | litestar/channels/subscriber.py:44-58 | with room, or without a limit, an item goes last; on a full queue backoff refuses it, and dropleft drops the first for it |
| `Subscribers.PutWaitsByStrategy` | litestar/channels/subscriber.py:49-50 | a put waits only on a full queue under backoff |
| `Subscribers.DropleftHoldsTheLatest` | litestar/channels/subscriber.py:21-27 | a dropleft queue holds as many of the latest items as the limit allows |
| `Subscribers.LatestRemain` | litestar/channels/subscriber.py:21-27 | of items put on an empty dropleft queue just the latest remain, as many as the limit allows |
| `Subscribers.StreamOfEvents` | litestar/channels/subscriber.py:64-74 | a stream yields precisely the items ahead of the sentinel, and nothing behind it |
| `Subscribers.StreamIsAhead` | litestar/channels/subscriber.py:64-74 | the stream of any queue that holds a sentinel is what stands ahead of the first one |
| `Subscribers.RoomAfterOneGet` | litestar/channels/subscriber.py:49-50 | a sentinel that waits on a full queue waits no longer than until one event is taken |
| `Subscribers.StreamEndsAtSentinel` | litestar/channels/plugin.py:238-242 | put when there is room, the sentinel ends the stream after all events, taken or queued; a full dropleft queue loses the oldest to it |
| `Subscribers.Subscriber.PutNowait` | litestar/channels/subscriber.py:52-58 | with room the item goes last; on a full queue it is refused under backoff, and takes the place of the oldest under dropleft |
| `Subscribers.Subscriber.IterEvents` | litestar/channels/subscriber.py:64-74 | iterating takes the events up to the sentinel off the queue and says whether the stream ended |
| `Channels.SubscribeKeepsConsistent` | litestar/channels/plugin.py:160-211 | a call on known or allowed channels adds the subscriber to exactly those, and keeps plugin and backend together |
| `Channels.FailedSubscribe` | litestar/channels/plugin.py:189-206 | a call that raises keeps them together if and only if the backend already had every channel that the call got to |
| `Channels.FailedSubscribeLosesEvents` | litestar/channels/plugin.py:189-206 | a concrete failed call after which a listener gets no events |
| `Channels.ProperIff` | litestar/channels/plugin.py:189-236 | the calls that the theorem on runs speaks of are just those that do not raise |
| `Channels.UnsubscribeKeepsConsistent` | litestar/channels/plugin.py:213-245 | unsubscribing removes the subscriber from exactly the named channels and keeps plugin and backend together, even when it raises |
| `Channels.UnsubscribeFromAll` | litestar/channels/plugin.py:221-236 | without naming channels the subscriber leaves all of them |
| `Channels.SubscribeTellsBackend` | litestar/channels/plugin.py:187-206 | the backend is subscribed to just those named channels that nobody listened to |
| `Channels.UnsubscribeTellsBackend` | litestar/channels/plugin.py:226-245 | the backend is unsubscribed from just those named channels that the subscriber was the last to listen to |
| `Channels.EventsReachListeners` | litestar/channels/plugin.py:312-315 | after any run of proper calls an event is offered to exactly those who have subscribed to its channel since |
| `Channels.ChannelsPlugin.constructor` | litestar/channels/plugin.py:317-323 | the plugin starts with the backend subscribed to all declared channels |
| `Channels.ChannelsPlugin.Subscribe` | litestar/channels/plugin.py:160-211 | the loop with its early exit makes the specified state, and raises exactly on an unknown channel |
| `Channels.ChannelsPlugin.Unsubscribe` | litestar/channels/plugin.py:213-245 | the loop makes the specified state; a subscriber left without channels has the sentinel put on its stream |
| `Channels.ChannelsPlugin.Deliver` | litestar/channels/plugin.py:312-315 | an event is put exactly once on the stream of exactly the channel's subscribers |
| `ChannelStreams.EveryRunIsSound` | litestar/channels/plugin.py:160-245 | in every run of calls, deliveries and gets, with events delivered and taken while an unsubscribe waits, plugin and backend fit together and every queue keeps its order and limit |
| `ChannelStreams.EveryRunIsHeard` | litestar/channels/plugin.py:312-315 | each subscriber is offered exactly the events of the channels it listens to when they arrive, in their order, and a sentinel when it has left its last one |
| `ChannelStreams.StreamsAreHistories` | litestar/channels/plugin.py:160-245 | so what is taken from its queue or still on it is that history, or under a limit an ordered selection of it |
| `ChannelStreams.CallsGoAheadIff` | litestar/channels/plugin.py:160-245 | when no call waits, a call is a step of a run if and only if it does not raise |
| `ChannelStreams.HearsAndLeaves` | litestar/channels/plugin.py:160-245 | a concrete run: a subscriber hears of an event, leaves, and finds its stream ended |
| `ChannelStreams.WaitsForOneGet` | litestar/channels/plugin.py:238-245 | an unsubscribe that has to put a sentinel can go on if and only if there was room, or the subscriber has taken an event since |
| `ChannelStreams.HalvesMakeUnsubscribe` | litestar/channels/plugin.py:213-245 | what it does before and after the wait is together the unsubscribe of the plugin |
| `ChannelStreams.OverlappingSubscribe` | litestar/channels/plugin.py:189-245 | a subscribe that comes while an unsubscribe waits keeps plugin and backend together if and only if it names no channel that is being left; of such a channel its subscriber hears nothing |
| `Lifespan.ServerHears` | litestar/_asgi/asgi_router.py:194-228 | the server hears startup.failed exactly when a start-up step raises, otherwise startup.complete and then shutdown.failed or shutdown.complete, the former exactly when an exception escapes |
| `Lifespan.TraceIsOrdered` | litestar/_asgi/asgi_router.py:194-228 | the first message is received ahead of everything; start-up steps are taken in declared order, and only after all of them start-up is reported as complete, and only then the shutdown message waited for; what closes comes after that, or after the step that failed, and the last message after all of it |
| `Lifespan.LeavesMeans` | litestar/app.py:598-612 | what leaves the lifespan is the last exception raised, if nobody swallowed it, and of a failed start-up that was swallowed that nothing was yielded |
| `Lifespan.InFlightIff` | litestar/app.py:598-612 | an exception leaves the exit stack if and only if nobody swallows it after the callback that raised it |
| `Lifespan.EverythingIsClosed` | litestar/app.py:598-612 | whatever raises or swallows, what was entered is exited exactly once, the last first, and then every shutdown hook runs once in declared order |
| `Lifespan.ASGIRouter.EnterLifespan` | litestar/app.py:598-612 | the pushes and entries up to the yield stop at the first step that raises and leave the exit stack that belongs to it |
| `Lifespan.ASGIRouter.ExitLifespan` | litestar/app.py:598-612 | unwinding calls everything on the stack, the top first, whatever raises |
| `Lifespan.ASGIRouter.Lifespan` | litestar/_asgi/asgi_router.py:194-228 | the protocol method has the specified trace and raises what leaves the lifespan |
| `Paths.NormalizeRenders` | litestar/utils/path.py:15-26 | stripping and collapsing slashes writes a slash before each segment; normalising twice changes nothing |
| `Paths.JoinRenders` | litestar/utils/path.py:29-38 | joining two paths puts their segments together |
| `Paths.JoinIsAssociative` | litestar/utils/path.py:29-38 | joining is associative, on all strings |
| `Layers.MergeIsIterated` | litestar/handlers/base.py:159-228 | merging all layers at once is merging them one at a time, which the documentation promises |
| `Layers.MergedMeaning` | litestar/handlers/base.py:187-219 | per key the innermost layer decides dependencies, exception handlers and opt, the outermost type encoders and parameters; guards and middleware run from the outermost, type decoders from the innermost |
| `Layers.NearestDto` | litestar/handlers/base.py:187-219 | the DTO and the return DTO are the handler's own, or else those of the nearest layer that has settled them |
| `Layers.MergedPaths` | litestar/handlers/base.py:179-191 | each path of a handler is put behind those of the routers around it, the outermost first |
| `Layers.MergeTwice` | litestar/handlers/base.py:227-228 | merging the innermost layer and then the others is merging them all |
| `Layers.GetMergeOpts` | litestar/handlers/base.py:159-219 | the loop over the layers computes the merged handler |
| `RouterTree.FlatteningIsAbsorbing` | litestar/app.py:729-777 | flattening and merging in one go is eliminating routers from the inside out |
| `RouterTree.FlatteningIsDepthFirst` | litestar/app.py:705-734 | every handler appears exactly once, in depth-first order, with the routers on its own path |
| `RouterTree.ReduceHandlers` | litestar/app.py:736-777 | what is yielded is each handler after every router, and last the application, has handed its options down |
| `OpenApiComponents.LongestIsGreatest` | litestar/_openapi/datastructures.py:22-39 | the result is the greatest common prefix |
| `OpenApiComponents.FindLongestCommonPrefix` | litestar/_openapi/datastructures.py:22-39 | the shrinking loops compute it |
| `OpenApiComponents.ShortIsInjective` | litestar/_openapi/datastructures.py:188-201 | removing the common prefix keeps distinct keys distinct |
| `Strings.JoinedEqualIff` | litestar/_openapi/datastructures.py:218 | two lists of parts are joined to one string if and only if they fall into the same pieces at the delimiter |
| `OpenApiComponents.CollideIff` | litestar/_openapi/datastructures.py:203-224 | two schemas get one name if and only if what is left of their keys falls into the same pieces at underscores |
| `OpenApiComponents.NamesDifferByPieces` | litestar/_openapi/datastructures.py:203-224 | so, whatever the keys, no schema is lost if and only if these pieces differ |
| `OpenApiComponents.JoinedIsInjective` | litestar/_openapi/datastructures.py:218 | keys without underscores and empty components can be read back from their names |
| `OpenApiComponents.NamesDifferIff` | litestar/_openapi/datastructures.py:203-224 | for such keys all schemas get different names if and only if at most one key begins its whole group |
| `OpenApiComponents.PrefixFreeNamesDiffer` | litestar/_openapi/datastructures.py:203-224 | with no key beginning another of its group, names differ |
| `OpenApiComponents.UnderscoresCollide` | litestar/_openapi/datastructures.py:218 | concrete keys, one with an underscore, whose schemas get one name |
| `OpenApiComponents.ThreeNames` | litestar/_openapi/datastructures.py:203-224 | concrete keys: two classes of one name keep what tells them apart, and one with a name of its own keeps that |
| `SchemaRegistry.Registry.GetSchemaForFieldDefinition` | litestar/_openapi/datastructures.py:107-127 | a type is registered once under its key, and a second type under the same key raises |
| `SchemaRegistry.Registry.GetReferenceForFieldDefinition` | litestar/_openapi/datastructures.py:129-169 | a new reference is issued for a registered key only, and remembers it |
| `SchemaRegistry.Registry.GenerateComponentsSchemas` | litestar/_openapi/datastructures.py:203-224 | every schema's name is a component, every component has the name of its schema, and every reference says its schema's name; whenever the names differ no schema is lost, and every issued reference points to its own schema |
| `FileStreaming.LocalReadBytes` | litestar/file_system.py:174-198 | what seeking and reading a length comes to, the exception for a negative length included |
| `FileStreaming.RangeMeans` | litestar/file_system.py:200-237 | which bytes the range has, one by one |
| `FileStreaming.LocalBytesRaises` | litestar/file_system.py:192-198 | it raises ValueError if and only if end is not -1 and more than one before start |
| `FileStreaming.LocalBytesIsRange` | litestar/file_system.py:174-198 | it is the slice up to the exclusive end if and only if end is -1 or not before start, or one before start with nothing left after start |
| `FileStreaming.ReadsOnPastEnd` | litestar/file_system.py:192-198 | a concrete end one before start, with which everything after start is read |
| `FileStreaming.NegativeLengthRaises` | litestar/file_system.py:192-198 | concrete ends further back, with which it raises |
| `FileStreaming.FsspecReadBytes` | litestar/file_system.py:261-279 | on every file system the range up to the exclusive end if end is -1 or not before start; on those that slice, exactly if end is at least -1, or counting from the end of the file leaves nothing |
| `FileStreaming.SliceIsRange` | litestar/file_system.py:276-279 | the slice that is asked for is the range exactly then |
| `FileStreaming.LocalIter` | litestar/file_system.py:200-237 | the chunks make up the slice, none is empty or too long, and the loop ends, even with short reads |
| `FileStreaming.SyncIter` | litestar/file_system.py:281-318 | the same for the loop that asks the file for its position |
| `FileStreaming.AsyncIter` | litestar/file_system.py:369-414 | the same for both loops of the asynchronous wrapper |
| `AcceptHeader.SortIsStable` | litestar/datastructures/headers.py:432-434 | the list is sorted by falling priority, equals keeping their order |
| `AcceptHeader.StableSortIsUnique` | litestar/datastructures/headers.py:432-434 | there is only one such list |
| `AcceptHeader.SortedFindsPreferred` | litestar/datastructures/headers.py:464-477 | going through the sorted list finds the matched type of greatest priority, earliest in the header among equals |
| `AcceptHeader.SomeIsPreferred` | litestar/datastructures/headers.py:464-477 | a preferred type exists if and only if some accepted type is matched |
| `AcceptHeader.MatchedHasFirst` | litestar/datastructures/headers.py:464-477 | a matched accepted type has a first provided type that matches it |
| `AcceptHeader.MatchMeansOverlap` | litestar/datastructures/headers.py:418-425 | two types match if and only if some concrete type lies in both, and the provided parameters are among the accepted ones |
| `AcceptHeader.FilledLiesInBoth` | litestar/datastructures/headers.py:464-477 | the result says what either of two matching types says, where it is no wildcard |
| `AcceptHeader.PriorityByQuality` | litestar/datastructures/headers.py:396-416 | the quality counts first, 100 without it, and then how much a type leaves open |
| `AcceptHeader.Accept.BestMatch` | litestar/datastructures/headers.py:464-477 | the default if nothing matches, else the first provided type that matches the preferred accepted one, its wildcards filled in |
| `Cookies.ParseCookieString` | litestar/_parsers.py:46-69 | the loop over the pieces keeps the first value of a name |
| `Cookies.PieceAdds` | litestar/_parsers.py:61-69 | a piece adds its value under the name ahead of its first equals sign, both stripped, unless the name is there already or both are empty |
| `Cookies.StripTakesSpace` | litestar/_parsers.py:65 | just the white space at both ends is taken off |
| `Cookies.HeadersAreMerged` | litestar/connection/base.py:213-216 | parsing the reassembled headers is the left-biased merge of parsing each |
| `Cookies.SplittingIsIrrelevant` | litestar/connection/base.py:198-217 | the first value sent under a name wins, however the cookies are spread over headers |
| `Cookies.ASGIConnection.GetCookies` | litestar/connection/base.py:198-217 | cached or not, the cookies are the merge of all headers, and the cache stays right |
| `ParameterSets.MergeInLoop` | litestar/_kwargs/parameter_definition.py:68-78 | the loop over the difference computes the merge |
| `ParameterSets.MergeIsNormalUnion` | litestar/_kwargs/parameter_definition.py:68-78 | on sets in normal form it is the union less shadowed optionals, again in normal form |
| `ParameterSets.MergeLaws` | litestar/_kwargs/parameter_definition.py:68-78 | there it is associative, commutative and idempotent |
| `ParameterSets.GroupingMattersUnlessNormal` | litestar/_kwargs/parameter_definition.py:68-78 | merging a set with itself and then with the empty one gives the same in both groupings if and only if the set is normal |
| `ParameterSets.AssociatesIff` | litestar/_kwargs/parameter_definition.py:68-78 | in a family of sets that has the empty one, grouping is irrelevant if and only if all are normal |
| `ParameterSets.OrderCountsOutOfNormalForm` | litestar/_kwargs/parameter_definition.py:68-78 | a concrete set out of normal form for which grouping matters |
| `ParameterSets.CreateForSignatureModel` | litestar/_kwargs/kwargs_model.py:381-402 | the recursion over the dependencies computes the expected parameters |
| `ParameterSets.ExpectedIsNormalUnion` | litestar/_kwargs/kwargs_model.py:381-402 | they are the union over the whole tree, required definitions shadowing optional ones |
| `ParameterSets.VisitingOrderIsIrrelevant` | litestar/_kwargs/kwargs_model.py:381-402 | neither the order nor repetition of dependencies matters |

## Left out

DTO transfer and parsing

- Names in generated code are structured identifiers, not strings. Two structured names may
  print alike; the source then moves on to the next index, which changes no behaviour.
- The objects that generated code finds in its globals stand in the code itself; the names
  of globals, `linecache`, `compile` and `exec` are not modelled. Where a hoisting line is
  no statement, the factory of the model stops at once, while the source fails later, on
  compiling; either way there is no function.
- Values have no identity: a nested dict that becomes the value of a field is copied, and
  two references to one object cannot be told apart. Reading an attribute runs no code, so
  presence tests and reads see the same object.
- The comprehensions that transfer the items of a collection are evaluated in full before
  the collection's class is called; a class that stops drawing items early is not modelled.
- `attribute_accessor` is `getattr`. A custom accessor, and properties that raise other
  exceptions than AttributeError, are not modelled.
- BackendAgreement.GeneratedCodeRefinesInterpreter: assumes that no field access of the interpreter raises, which is said of its result; AgreeableSourcesAgree says it of the source and the classes.
- Exactness (`AgreementIsExact`) is about classes that never raise and that keep their
  arguments apart; for others the condition is sufficient only. For return data that both
  is unfaithful and is read differently, that both backends raise AttributeError is stated
  of the results, not traced back to the source.
- msgspec structs, encoding and decoding, type variables and generic models, names of
  transfer models, `rename_strategy`, default values, and computed pass-through fields.
- A negative `max_nested_depth`, for which the unfolding of a recursive model has no bound.

Dependencies

- Providers are functions of their arguments: caching of their results, exceptions that
  leave `resolve_dependencies`, and cancellation are not modelled. Circular providers are
  ruled out by a rank; the source recurses without end on them.
- A generator is known by the key of its dependency. It is registered in one step with the
  call of its provider.
- Where the task group of a clean-up cancels its other tasks is left open: once a generator
  has raised, any other may be advanced, cancelled while it runs, or not advanced at all.
  So is whether it takes an exception outside `Exception` for a failure, for a cancellation,
  or lets it leave at once.

Channels

- Channels.ChannelsPlugin.Unsubscribe: puts the sentinel without waiting, because the class has no queues; the wait on a full queue is modelled by ChannelStreams.
- In the runs calls of `subscribe` and `unsubscribe` do not overlap each other, though
  deliveries and gets happen while `unsubscribe` waits; `OverlappingSubscribe` is about one
  overlap only. History, publishing, the worker tasks, `join` and the count of unfinished
  tasks are not modelled, nor are the backends' own stores.
- A subscriber's running task is not modelled: `unsubscribe` ends at the sentinel.

Application and lifespan

- Hooks and managers are known by whether they raise, and managers by whether they swallow
  an exception; what they do is not modelled. Sending a message never raises.
- Controllers are taken as the routers they are turned into. Validation of registered
  values, `signature_namespace`, options that only HTTP or WebSocket handlers have, the
  routing trie, and registration after start-up.

OpenAPI

- How annotations are normalised to keys; the schemas themselves. A schema stands for the
  key it is registered under, and a reference for the number it was issued as. When names
  collide, which of the schemas is kept is not stated.
- SchemaRegistry.Registry.GenerateComponentsSchemas: does not state the order of the components, because a map has none.

Files, headers, cookies

- A file's content does not change while it is read. Opening, closing and threads are not
  modelled.
- `cat_file` of fsspec is not part of this model. It is taken to read the range when `end`
  does not come before `start`; other arguments are left open, except for file systems that
  slice like Python does. `start` is not negative.
- Splitting a header into media types, and a media type into its parameters; the number
  that a quality parameter stands for is unknown. An infinite quality, for which the source
  raises OverflowError, is not modelled.
- Unquoting is an unknown function. `str.strip` knows the white space that can occur in a
  header, which is Latin-1 text.

Parameters

- Which parameters a signature has, and the validation of `data` across dependencies.
