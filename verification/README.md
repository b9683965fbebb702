# Proofs about the kernel host and its tools

A Dafny model of the parts of this repository whose correctness is an argument rather than a calculation, with the
arguments written out. `dafny verify dfyconfig.toml` checks all of it.

| area | modules |
|---|---|
| lineage element naming | `NameGrammar`, `NameDigest`, `NameCongruence`, `NameBirths`, `ElementNaming` (what each pass computes), `PassState`, `NamingRun` (the classes), `NamingProgress`, `NamingRefusal`, `NamingGrammarKept`, `NamingAlignment`, `NamingEquations`, `NamingSolution`, `NamingTelling`, `NamingOrder`, `NamingHistory`, `NamingDeterminism`, `NamingWitnesses` |
| construction correspondence | `Correspondence`, `CorrespondenceLaws`, `CorrespondenceMeaning` |
| replay and prefix cache | `BodyPools`, `SnapshotCache`, `CacheRecency`, `ReplayEngine`, `ReplayLaws`, `ReplayHistory`, `ReplayPairs` |
| graph and list algorithms | `FaceComponents`, `ToolingRoles`, `TopoOrder`, `Prune`, `TreeUnion` |
| closed surfaces and exact arithmetic | `BrepModel`, `Prism`, `PrismTable`, `PrismLaws`, `PrismOutward`, `PrismSurface`, `Plate`, `Meshes`, `MeshVolume`, `MeshCheck`, `Feasibility`, `Blade` |
| shared | `Outcomes` (optional results), `Counting` (rearranged lists) |

## Where to look first

- **Naming.** `NamingRun.OperationNaming` follows the passes of the source class field by field and is proved equal to
  the functions of `ElementNaming`. The passes find the one solution of a set of equations, one per entity, that say what
  each name is taken from in terms of the history and the other names (`NamesAreToldIff`), and so exactly when two
  entities are called alike (`NamingTelling`). Further: two evaluations of one document on whatever handles give the same names
  letter by letter (`DocumentsAgree`); a completed run over distinct source names keeps all its names when the inputs are
  rearranged exactly when every merged entity keeps its winning source (`InputOrderInvisibleIff`); after a feature is
  suppressed upstream, every part of an operation that is closed under incidence, history and siblings and still there
  keeps its normal forms, through every embedded hash, whatever shapes are gone elsewhere
  (`CongruenceSurvivesOperations`); the interleaved loop is over after two turns, always at a true fixpoint
  (`TwoTurnsSettle`); and a run ends in the two-distinct-names error exactly when a split edge is stranded, which history
  and incidence alone decide (`RefusedIffSplitEdgeStranded`, `ApplyCompletesIff`).
- **Correspondence.** The sequential matcher is equivalent to an order-free notion of matching (`CompletesIffMatching`),
  and that to a description of every entity's fate by the two constructions alone (`FatesAreDeserved`).
- **Replay.** Warm equals cold on every kernel exactly for replayable requests (`WarmEqualsColdIff`). For two requests in
  a row that decides the second answer on all kernels that leave the shared prefix live (`SecondIsColdIff`), and which
  prefixes stay live is read off the snapshots' weights (`PrefixLiveIff`). It is lifted to whole histories of
  evaluations, edits and evictions (`WarmIsColdThroughout`). What a cold evaluation answers is said by the states it goes
  through (`ColdMeans`).
- **Surfaces.** Every prism is one solid in a closed, connected surface without pinches, with all faces looking out
  (`PrismIsClosedSurface`); the volume of a mesh is the content of the tetrahedra that fill it (`FilledVolume`), and a
  watertight one keeps it under translation (`WatertightVolumeStands`).

## How things are represented

- A sub-shape is an opaque number with a kind and an incidence relation, in which a sub-shape of a sub-shape is a
  sub-shape; an operation's history is two functions to lists of shapes. SHA-256, quantized geometry keys and the
  canonical JSON of an operation are uninterpreted; a hash yields eight hex digits. That hashes do not collide is a
  hypothesis of the cache theorems (`CollisionFree`) and, for the two texts at hand, of `HashSeesNormalForms` and `NamingTelling`.
- Two evaluations correspond through a one-to-one match of some of their shapes under which kinds, incidence, geometry
  keys and histories agree; that the geometry library delivers such evaluations is assumed, not proved.
- A C++ exception or a Python error is a refused result (`None`, `false`, or a named outcome). What a refused method
  leaves behind is stated where the source leaves something behind.
- Numbers of the C++ and Python code are exact: `real` for volumes, magnitudes and fractions, unbounded integers for
  counters, generations and coordinates that are small integers.
- Group plans of the naming pass are one map taken in arbitrary order; the result is proved not to depend on it, so it
  covers the source's two plan containers in any order. Of several Modified sources the lowest ordinal wins.
- An execution of one operation is any function of the operation's hashed projection, its anchors, the projections of
  the document's operations, the state and whether a registry is passed in: the two lookups of other operations
  (`mold_tooling_feature.cpp:110-164`) read projected fields only. `Faithful` says it looks up other operations only by
  what precedes it.

## Where code and documentation differ, and limits found

The model follows the code in each case. The guard of 32 is a field of the run's context: the laws hold for any guard of at least two.

- The evaluator's header (`geometry.hpp:180-186`) requires a warm evaluation to equal a cold one. The suppression flag
  sits in an operation's metadata, which is not hashed, so suppressing a cached feature serves the old body
  (`SuppressionServedStale`). The anchors of selector slots are not hashed either (`operation_hash.cpp:71`), and they
  decide what an ambiguous selector picks (`ref_resolution-core.cpp:303-343`), so editing an anchor serves the old body
  as well (`AnchorEditServedStale`). The same holds for asking names of a prefix cached without them, and a registry's records
  are not in the snapshot. `Replayable` is the exact condition under which the header's promise holds.
- `geometry.hpp:188-193` promises a live total within budget. One entry always stays, so the promise fails exactly
  when the newest snapshot alone is over budget (`PutGoverns`).
- "Operations actually executed" (`geometry.hpp:222-224`) also counts suppressed operations of the tail: the count is
  right exactly when there are none (`ExecutedCountIff`).
- `element_names.hpp:66-75` counts two names as one construction identity also when one normal form continues the other
  by Modified steps, and says that identity survives hashing. That relation is not transitive (`SiblingsPart`, and
  exactly when in `TransitiveIffUnparted`), and only equality of normal forms survives hashing (`HashSeesNormalForms`).
  The code compares normal forms for equality alone; `Congruent` is that equality.
- `element_names.hpp` presents every completed operation as totally named; runs may instead end in the two-distinct-names
  error, because reconstruction skips bound shapes but not waiting ones (`RefusedIffSplitEdgeStranded`,
  `SplitEdgeIsStranded`).
- The guard of 32 on the naming loops is presented as a bound (`element_names.cpp:228-252`); it is never reached.
- Bodies registered one by one under one operation id repeat each other's birth names place by place
  (`BirthsCollideIff`).
- The mold tooling header describes inserts in author order; the code sorts them by descending volume.
- A ring of more than forty copies reuses the number of its forty-first copy for its first union (`RingNumbersIff`).
- The mesh check calls a triangle with a repeated index watertight (`SliverIsWatertight`).

## Model

| member | source | states |
|---|---|---|
| NameGrammar.NormalizeName | legacy/aethalgard/native/kernel-host/src/element_names.cpp:90-111 | the normalization loop returns the normal form: the name without its plain Modified segments |
| NameGrammar.NormalizedAppend | legacy/aethalgard/native/kernel-host/src/element_names.cpp:90-111 | normalization is a left fold over segments: the front of a name is seen only through its normal form |
| NameGrammar.NormalizedTwice | legacy/aethalgard/native/kernel-host/src/element_names.cpp:77-111 | normalization is idempotent on every text |
| NameGrammar.PlainStepIsNeutral | legacy/aethalgard/native/kernel-host/src/element_names.hpp:66-75 | a plain Modified segment may be inserted or erased anywhere in a chain without changing the normal form |
| NameGrammar.OtherStepIsKept | legacy/aethalgard/native/kernel-host/src/element_names.hpp:66-75 | any other segment is kept and appended: normalization commutes with taking such a step |
| NameGrammar.CongruentExtend | legacy/aethalgard/native/kernel-host/src/element_names.hpp:66-75 | names with equal normal forms keep equal normal forms under any common continuation |
| NameGrammar.CongruentIffSameSegments | legacy/aethalgard/native/kernel-host/src/element_names.hpp:66-75 | two normal forms are equal exactly when the names keep the same segments |
| NameGrammar.GrammarExtend | legacy/aethalgard/native/kernel-host/src/element_names.hpp:17-57 | a chain in the grammar that takes a well-formed step stays in the grammar |
| NameGrammar.OneRoot | legacy/aethalgard/native/kernel-host/src/element_names.hpp:17-57 | in a grammatical name the first segment, and no other, is a root |
| NameDigest.Sorted | legacy/aethalgard/native/kernel-host/src/element_names.cpp:113-123 | the sorted list is an ascending rearrangement of the names |
| NameDigest.LexLeqIs | legacy/aethalgard/native/kernel-host/src/element_names.cpp:113-123 | one text is at most another exactly when it begins it, or is smaller where they first differ |
| NameDigest.JoinLast | legacy/aethalgard/native/kernel-host/src/element_names.cpp:113-123 | the hashed text of several lines is that of all but the last, a newline, and the last |
| NameDigest.DigestOrderFree | legacy/aethalgard/native/kernel-host/src/element_names.cpp:113-123 | rearranging the constituents leaves the hashed text unchanged |
| NameDigest.DigestInputInjective | legacy/aethalgard/native/kernel-host/src/element_names.cpp:113-123 | for non-empty newline-free names the hashed text is equal exactly when the multisets are equal |
| NameCongruence.TransitiveIffUnparted | legacy/aethalgard/native/kernel-host/src/element_names.hpp:68-71 | the construction identity of the header is transitive through a middle name exactly when the outer normal forms have not parted |
| NameCongruence.SiblingsPart | legacy/aethalgard/native/kernel-host/src/element_names.hpp:68-71 | two differently disambiguated Modified siblings both have their source's identity but not each other's, so that identity is not transitive |
| NameCongruence.StepKeepsIdentityIff | legacy/aethalgard/native/kernel-host/src/element_names.hpp:68-71 | one kept step on, a name has its source's identity exactly when the step is a Modified one |
| NameCongruence.HashSeesNormalForms | legacy/aethalgard/native/kernel-host/src/element_names.hpp:71-72 | roots that hash constituent names have one identity exactly when the hashed normal forms are equal as multisets, short of a collision |
| NameCongruence.HashForgetsSplit | legacy/aethalgard/native/kernel-host/src/element_names.hpp:71-72 | a half of a split has its source's identity, but roots hashed over the two have not: the header's identity does not survive hashing |
| NameBirths.OperationIdPrefix | legacy/aethalgard/native/kernel-host/src/element_names.cpp:50-75 | an accepted operation id yields exactly eight lower-case hex digits |
| NameBirths.PrefixIsFirstEight | legacy/aethalgard/native/kernel-host/src/element_names.cpp:50-75 | the prefix is the first eight hex digits of the id without its dashes, capitals lowered; there is none exactly when these are not eight hex digits |
| NameBirths.ReadOperationIdPrefix | legacy/aethalgard/native/kernel-host/src/element_names.cpp:57-75 | the scanning loop returns exactly the first eight hex digits, dashes dropped and capitals lowered, or refuses |
| NameBirths.BirthsInGrammar | legacy/aethalgard/native/kernel-host/src/element_names.cpp:653-669 | every birth name is in the grammar |
| NameBirths.BirthsAre | legacy/aethalgard/native/kernel-host/src/element_names.cpp:653-669 | the i-th face, edge or vertex is called f, e or v with the decimal digits of i |
| NameBirths.BirthsDistinct | legacy/aethalgard/native/kernel-host/src/element_names.cpp:653-669 | no two entities of one registered shape share a birth name |
| NameBirths.BirthsCollideIff | legacy/aethalgard/native/kernel-host/src/element_names.cpp:653-669 | births of two registrations share a name exactly when the id prefix, the kind and the place in the enumeration agree |
| NameBirths.BirthsPrefixStable | legacy/aethalgard/native/kernel-host/src/element_names.hpp:24-30 | extending the enumeration of a kind keeps the birth names of everything enumerated before |
| NamingRun.ElementNameBook.AddPrimitive | legacy/aethalgard/native/kernel-host/src/element_names.cpp:653-669 | refuses exactly on a bad id or a renaming; otherwise adds the birth names; never changes a name in the book, and adds only birth names even when it refuses midway |
| NamingRun.ElementNameBook.AddDerivedPrimitive | legacy/aethalgard/native/kernel-host/src/element_names.cpp:671-689 | names the sub-shapes that have none by their birth names; shared ones keep theirs |
| NamingRun.ElementNameBook.ApplyOperation | legacy/aethalgard/native/kernel-host/src/element_names.cpp:691-697 | completes exactly when the specification does, with its book; never changes a name already in the book |
| NamingRun.ElementNameBook.TakeSnapshot | legacy/aethalgard/native/kernel-host/src/element_names.cpp:709-712 | the snapshot equals the book and is independent of it |
| NamingRun.ElementNameBook.RestoreFrom | legacy/aethalgard/native/kernel-host/src/element_names.cpp:714-714 | the book becomes the snapshot |
| NamingRun.OperationNaming.Run | legacy/aethalgard/native/kernel-host/src/element_names.cpp:220-257 | the whole run leaves the book of the pass-by-pass specification or refuses with it, nothing in the book is renamed, and a completed run adds the solution of the naming equations |
| NamingRun.OperationNaming.Assign | legacy/aethalgard/native/kernel-host/src/element_names.cpp:290-308 | binds a name unless the shape holds a different one |
| NamingRun.OperationNaming.CollectSources | legacy/aethalgard/native/kernel-host/src/element_names.cpp:310-333 | succeeds exactly when every input sub-shape has a name; sources are the inputs enumerated once each |
| NamingRun.OperationNaming.PassIdentitySurvivors | legacy/aethalgard/native/kernel-host/src/element_names.cpp:335-342 | exactly the sources that are still in the result keep their names |
| NamingRun.OperationNaming.BuildReverseHistory | legacy/aethalgard/native/kernel-host/src/element_names.cpp:344-369 | for every result entity, the ascending ordinals of the sources whose history lists it |
| NamingRun.OperationNaming.DescentOf | legacy/aethalgard/native/kernel-host/src/element_names.cpp:371-412 | how an entity descends: lowest Modified source, else Generated source or section, else none |
| NamingRun.OperationNaming.PlanAndAssignHistoryImages | legacy/aethalgard/native/kernel-host/src/element_names.cpp:371-476 | names sole images, queues siblings with stem and anchors; the state is the specified one whatever order groups are taken in |
| NamingRun.OperationNaming.TryDisambiguate | legacy/aethalgard/native/kernel-host/src/element_names.cpp:478-523 | a sibling gets the hash of the sorted normal forms of its lower names when there are any and all are there; else a vertex, and under force any, gets the hash of its geometry key; else none |
| NamingEquations.RoleIs | legacy/aethalgard/native/kernel-host/src/element_names.cpp:344-412 | every entity descends as the history says: from the first source that lists it as Modified, else from its one generator or as a section, and is without a role exactly when nothing lists it |
| NamingEquations.ChosenIs | legacy/aethalgard/native/kernel-host/src/element_names.cpp:440-458 | a section is named after the faces among an edge's generators, the edges among a vertex's, if there are two, and else after all |
| NamingEquations.MatesIs | legacy/aethalgard/native/kernel-host/src/element_names.cpp:371-476 | images share a group exactly when they have one kind and one source and step, or are sections of one parent hash |
| NamingSolution.CompletedRun | legacy/aethalgard/native/kernel-host/src/element_names.cpp:228-257 | a run that completes is one turn, the forced sweep, one reconstruction and the roots |
| NamingSolution.NamesAreToldIff | legacy/aethalgard/native/kernel-host/src/element_names.cpp:371-613 | the names of a completed run are the one solution of one equation per entity: kept, its step, its step with the hash of its lower entities' names (exactly when history accounts for all of these) or of its geometry, the hash of what surrounds it (exactly when all of that is accounted for or so named), or its geometry root |
| NamingTelling.SiblingsTellWhatIsBelow | legacy/aethalgard/native/kernel-host/src/element_names.cpp:497-516 | two images of one step whose lower entities history accounts for get equal names exactly when the normal forms of the final names of their edges (or end points) are equal as multisets, short of a collision on those two texts |
| NamingTelling.SiblingsTellGeometry | legacy/aethalgard/native/kernel-host/src/element_names.cpp:478-520 | other images of one step get equal names exactly when their geometry keys, quantized by their sources, are equal |
| NamingTelling.BoundsTellWhatIsAround | legacy/aethalgard/native/kernel-host/src/element_names.cpp:560-597 | two reconstructed entities get equal names exactly when the normal forms of the final names of what contains them are equal as multisets |
| NamingTelling.SectionsTellParents | legacy/aethalgard/native/kernel-host/src/element_names.cpp:440-476 | two section entities get the same root exactly when their chosen parents' book names are equal as multisets of normal forms |
| NamingTelling.RootsTellGeometry | legacy/aethalgard/native/kernel-host/src/element_names.cpp:601-613 | two entities of last resort get equal names exactly when their geometry keys, quantized by the result, are equal |
| NamingRun.OperationNaming.ResolvePendingDisambiguators | legacy/aethalgard/native/kernel-host/src/element_names.cpp:485-525 | one sweep equals the specified sweep; progress is reported exactly when fewer siblings wait |
| NamingRun.OperationNaming.ContainersOf | legacy/aethalgard/native/kernel-host/src/element_names.cpp:527-556 | incidence read off the result equals the containers of each entity in order |
| NamingRun.OperationNaming.ResolveLowerBoundNames | legacy/aethalgard/native/kernel-host/src/element_names.cpp:560-597 | edges from faces, then vertices from edges, as specified; progress exactly when an entity gained a name |
| NamingRun.OperationNaming.InterleaveToFixpoint | legacy/aethalgard/native/kernel-host/src/element_names.cpp:228-244 | the guarded loop of sweeps and reconstructions equals the specified iteration of 32 turns |
| NamingRun.OperationNaming.RebuildToFixpoint | legacy/aethalgard/native/kernel-host/src/element_names.cpp:246-252 | the reconstruction loop after the forced sweep equals the specified iteration |
| NamingRun.OperationNaming.AssignQuantizedRoots | legacy/aethalgard/native/kernel-host/src/element_names.cpp:601-613 | every entity without a name gets its quantized root |
| NamingRun.OperationNaming.MergeIntoBook | legacy/aethalgard/native/kernel-host/src/element_names.cpp:615-631 | refuses exactly when a live entity would be renamed; otherwise the union of both name maps |
| ElementNaming.RoleOf | legacy/aethalgard/native/kernel-host/src/element_names.cpp:371-412 | every role points at sources only, and a section has at least two |
| NamingProgress.ResolveExtends | legacy/aethalgard/native/kernel-host/src/element_names.cpp:485-525 | a sweep only adds names, and whatever stops waiting is named |
| NamingProgress.ForcedSweepEmptiesOpen | legacy/aethalgard/native/kernel-host/src/element_names.cpp:485-525 | a completed forced sweep leaves no sibling waiting |
| NamingProgress.UnchangedIffSettled | legacy/aethalgard/native/kernel-host/src/element_names.cpp:228-244 | a turn changes nothing exactly when no sibling can be disambiguated and nothing reconstructed |
| NamingProgress.TurnDecreases | legacy/aethalgard/native/kernel-host/src/element_names.cpp:228-244 | every turn that changes something strictly lowers waiting siblings plus unnamed entities |
| NamingRefusal.TurnTwice | legacy/aethalgard/native/kernel-host/src/element_names.cpp:228-244 | a second turn of the loop either clashes or changes nothing |
| NamingRefusal.TwoTurnsSettle | legacy/aethalgard/native/kernel-host/src/element_names.cpp:228-244 | for every operation the loop equals its first two turns and, if it completes, ends at a true fixpoint: its guard never cuts in |
| NamingProgress.RebuildStopsAtOnce | legacy/aethalgard/native/kernel-host/src/element_names.cpp:246-252 | after the forced sweep one reconstruction is already the fixpoint |
| NamingProgress.TotalCoverage | legacy/aethalgard/native/kernel-host/src/element_names.cpp:598-613 | a completed run names every face, edge and vertex of the result, and nothing else |
| NamingProgress.SurvivorsKeepNames | legacy/aethalgard/native/kernel-host/src/element_names.cpp:335-342 | an entity shared with an input keeps exactly its name |
| NamingGrammarKept.NamesInGrammar | legacy/aethalgard/native/kernel-host/src/element_names.hpp:17-57 | from grammatical input names a completed run makes only grammatical names |
| NamingGrammarKept.StepIdentity | legacy/aethalgard/native/kernel-host/src/element_names.hpp:31-45 | a sole Modified image keeps its source's normal form; Generated images and disambiguated siblings continue it by one step, and of these exactly the Modified ones have their source's identity in the header's wider sense |
| NamingGrammarKept.SplitHalvesPart | legacy/aethalgard/native/kernel-host/src/element_names.hpp:36-41 | differently disambiguated halves of one split both have their source's identity, but not each other's |
| NamingRefusal.ClashIffBound | legacy/aethalgard/native/kernel-host/src/element_names.cpp:566-592 | a sibling that was reconstructed first can never take its own name any more |
| NamingRefusal.RefusedIffSplitEdgeStranded | legacy/aethalgard/native/kernel-host/src/element_names.cpp:566-592 | a run ends in the two-distinct-names error exactly when one of several images of one step is an edge with an end point outside all history (or none) and all result faces around it carry names from the start |
| NamingRefusal.StrandedAmongNewFaces | legacy/aethalgard/native/kernel-host/src/element_names.cpp:310-342 | with sources read off the inputs, such an edge lies only on faces that are each the sole image of a step, on none that was there before |
| NamingRefusal.CompletesWithoutSplitEdges | legacy/aethalgard/native/kernel-host/src/element_names.cpp:566-592 | with no split edge among the images every run completes |
| NamingWitnesses.SplitEdgeIsStranded | legacy/aethalgard/native/kernel-host/src/element_names.cpp:566-592 | splitting the diameter of half a disc, with the new middle vertex in no history, ends in that error |
| NamingAlignment.PartsAligned | legacy/aethalgard/native/kernel-host/src/element_names.cpp:371-525 | where a part of one evaluation, closed under sub-shapes, containers, history and siblings, reappears in another, two completed runs name the part alike, whatever else they contain |
| NamingAlignment.RunsAligned | legacy/aethalgard/native/kernel-host/src/element_names.cpp:371-525 | evaluations that correspond as a whole complete together and name all entities alike: nothing of the handles, the source order or plain steps shows |
| NamingOrder.InputOrderInvisibleIff | legacy/aethalgard/native/kernel-host/src/element_names.cpp:371-525 | for a completed run over distinct source names, rearranging the inputs changes no name exactly when every Modified image keeps its winning source; the same winners always mean the same outcome |
| NamingOrder.EarliestInputWins | legacy/aethalgard/native/kernel-host/src/element_names.cpp:310-333 | a merged image goes on from the first input that has a source for it; within one input faces come before edges before vertices, in the input's own order |
| NamingOrder.ImageNamedOnStem | legacy/aethalgard/native/kernel-host/src/element_names.cpp:371-525 | in a completed run every image is named by its source's name and step, alone or with a disambiguator |
| NamingOrder.InputOrderIsInvisible | legacy/aethalgard/native/kernel-host/src/element_names.cpp:371-525 | corollary of the iff: where no result entity has two Modified sources, permuting the input list changes no name |
| NamingWitnesses.MergedImageSeesOrder | legacy/aethalgard/native/kernel-host/src/element_names.cpp:395-412 | when two inputs merge into one face, the order of the inputs does show in its name |
| NamingAlignment.CongruenceSurvivesOperations | legacy/aethalgard/native/kernel-host/src/element_names.hpp:66-75 | a re-evaluation with a feature suppressed: on any closed part that corresponds, input names with equal normal forms give equal normal forms through the whole run, hashes included, whatever shapes are gone elsewhere |
| NamingWitnesses.SuppressionKeepsTheRest | legacy/aethalgard/native/kernel-host/src/element_names.hpp:66-75 | a concrete operation of which one face is gone after a suppression and the other keeps its normal form |
| NamingAlignment.EvaluationsAgree | legacy/aethalgard/native/kernel-host/src/element_names.hpp:77-79 | two evaluations of one operation on corresponding shapes end alike with letter by letter the same names |
| NamingHistory.StepKeeps | legacy/aethalgard/native/kernel-host/src/element_names.cpp:615-697 | one completed book operation adds names for exactly its subject and changes none |
| NamingHistory.ApplyRefusesIff | legacy/aethalgard/native/kernel-host/src/element_names.cpp:310-631 | an operation refuses exactly when an input part is unnamed, a split edge is stranded, or a live result entity that is no part of an input would be renamed |
| NamingHistory.ApplyCompletesIff | legacy/aethalgard/native/kernel-host/src/element_names.cpp:310-631 | with a result of new entities and input parts, an operation completes exactly when every input part is named and no split edge is stranded |
| NamingHistory.BookKeepsNames | legacy/aethalgard/native/kernel-host/src/element_names.cpp:615-697 | over any completed sequence no name ever changes, every name is grammatical, every subject is fully named |
| NamingDeterminism.BirthsAgree | legacy/aethalgard/native/kernel-host/src/element_names.cpp:653-669 | corresponding primitives give corresponding entities the same birth names |
| NamingDeterminism.DocumentsAgree | legacy/aethalgard/native/kernel-host/src/element_names.hpp:77-79 | two evaluations of one document, any sequence of births and operations on corresponding shapes, refuse together or end with letter by letter the same names |
| Correspondence.ReadShape | legacy/aethalgard/native/kernel-host/src/mutation.cpp:1598-1638 | accepts one argument sub-shape exactly when history and result agree on it, and files its images |
| Correspondence.ReadLineage | legacy/aethalgard/native/kernel-host/src/mutation.cpp:1582-1644 | completes exactly on a history that agrees with the result everywhere, with the lineage of all owners, kinds and indices |
| CorrespondenceLaws.LineageIsSound | legacy/aethalgard/native/kernel-host/src/mutation.cpp:1598-1638 | every recorded image is in the result, and same-kind images have their key's kind |
| CorrespondenceLaws.LineageIs | legacy/aethalgard/native/kernel-host/src/mutation.cpp:1592-1640 | with distinct owners each argument sub-shape is filed under its own key with its own images, and nothing else is |
| Correspondence.Intersect | legacy/aethalgard/native/kernel-host/src/mutation.cpp:1757-1785 | candidates are exactly the same-kind after entities that descend from every translated parent |
| Correspondence.Refine | legacy/aethalgard/native/kernel-host/src/mutation.cpp:1797-1836 | refinement keeps exactly the candidates inside every surviving container's image |
| Correspondence.DecideEntity | legacy/aethalgard/native/kernel-host/src/mutation.cpp:1706-1853 | one entity is gone, stable with a forced unused image, or refused, as specified; what that means for the constructions is `FatesAreDeserved` |
| Correspondence.ConstructionCorrespondence | legacy/aethalgard/native/kernel-host/src/mutation.cpp:1659-1859 | the nested loops equal the one-pass specification: a fate per entity, or a refusal |
| CorrespondenceLaws.ContainersSettled | legacy/aethalgard/native/kernel-host/src/mutation.cpp:1690-1700 | faces, edges, vertices: an entity's containers are settled before it, so later decisions cannot affect it |
| CorrespondenceLaws.CompletesIffMatching | legacy/aethalgard/native/kernel-host/src/mutation.cpp:1659-1859 | the run completes with given fates exactly when they form an order-free matching of congruent arguments |
| CorrespondenceLaws.CorrespondenceIsSafe | legacy/aethalgard/native/kernel-host/src/mutation.cpp:1659-1859 | one fate per entity; gone exactly when a parent's owner is absent; otherwise an unshared image of the same kind, from every parent, in every container, with every rival candidate excluded by a container |
| CorrespondenceLaws.SelfCorrespondence | legacy/aethalgard/native/kernel-host/src/mutation.cpp:1659-1859 | a construction matched with itself completes exactly when every entity is attributed and told apart, and then maps every entity to itself |
| CorrespondenceMeaning.ConsistentMeans | legacy/aethalgard/native/kernel-host/src/mutation.cpp:1598-1638 | a lineage is read exactly when what the history leaves of every argument sub-shape is in the result and of its kind, and what it generates is in the result |
| CorrespondenceMeaning.LineageReads | legacy/aethalgard/native/kernel-host/src/mutation.cpp:1592-1640 | a key has exactly the images the history of its argument sub-shape gives it: none if removed, itself if the history is silent |
| CorrespondenceMeaning.FatesAreDeserved | legacy/aethalgard/native/kernel-host/src/mutation.cpp:1659-1859 | said of the two constructions alone: the run completes with given fates exactly when shared owners have the same counts, every entity descends from something, is gone exactly when some argument it descends from belongs to an absent owner, and is otherwise carried on by the one candidate, or the one inside all its containers' images, and no image is shared |
| CorrespondenceMeaning.AbsentParentNeverRefuses | legacy/aethalgard/native/kernel-host/src/mutation.cpp:1737-1751 | an entity with one parent whose owner is absent is gone and never a reason to refuse, whatever its other parents |
| CorrespondenceMeaning.CorrespondenceEntries | legacy/aethalgard/native/kernel-host/src/mutation.cpp:1659-1859 | reading both states and matching them: the fates that every entity deserves, or none exactly when a history disagrees, counts differ, or no such fates exist |
| BodyPools.BodyPool.Produce | legacy/aethalgard/native/kernel-host/src/body_pool.hpp:32-36 | appends a visible body that its id now resolves to; containers stay aligned |
| BodyPools.BodyPool.Consume | legacy/aethalgard/native/kernel-host/src/body_pool.hpp:46-60 | hands out the last visible body under a resolving id and marks only it consumed; otherwise refuses and changes nothing |
| BodyPools.BodyPool.PeekVisibleBodies | legacy/aethalgard/native/kernel-host/src/body_pool.hpp:68-76 | the unconsumed bodies in production order |
| BodyPools.BodyPool.TakeSnapshot | legacy/aethalgard/native/kernel-host/src/body_pool.hpp:109-109 | the snapshot is the whole pool value |
| BodyPools.BodyPool.RestoreFrom | legacy/aethalgard/native/kernel-host/src/body_pool.hpp:113-117 | the pool becomes the snapshot |
| BodyPools.PoolRefinesShelf | legacy/aethalgard/native/kernel-host/src/body_pool.hpp:32-60 | the index-aligned containers behave like a list of visible bodies with a set of resolvable ids |
| BodyPools.VisibleIffShown | legacy/aethalgard/native/kernel-host/src/body_pool.hpp:68-76 | a list of bodies is the visible one exactly when it has those at the unconsumed places, earlier places first |
| BodyPools.VisiblePlusConsumed | legacy/aethalgard/native/kernel-host/src/body_pool.hpp:62-76 | visible count plus consumed count is produced count |
| BodyPools.RunKeepsBodies | legacy/aethalgard/native/kernel-host/src/body_pool.hpp:32-60 | between restorations bodies are only appended, nothing consumed becomes visible again, and the counts balance |
| BodyPools.RestoringUndoes | legacy/aethalgard/native/kernel-host/src/body_pool.hpp:99-117 | over any run of productions, consumptions, snapshots and restorations the pool is aligned and balanced, and is the one the surviving edits alone would have made |
| SnapshotCache.EvictToBudgetIs | legacy/aethalgard/native/kernel-host/src/geometry.cpp:6868-6886 | eviction drops least recent entries, keeps at least one, and stops within budget or at one entry |
| SnapshotCache.EvictNoMoreThanNeeded | legacy/aethalgard/native/kernel-host/src/geometry.cpp:6868-6886 | keeping one entry more would have been over budget |
| SnapshotCache.PutKeeps | legacy/aethalgard/native/kernel-host/src/geometry.cpp:6817-6837 | a store keeps the new snapshot in front and every other surviving entry unchanged |
| SnapshotCache.PutFits | legacy/aethalgard/native/kernel-host/src/geometry.cpp:6817-6837 | a snapshot that fits the budget is added and every other entry stays |
| SnapshotCache.PutGoverns | legacy/aethalgard/native/kernel-host/src/geometry.cpp:6817-6886 | after a store the budget is exceeded exactly when the new snapshot alone exceeds it |
| SnapshotCache.PutAccounts | legacy/aethalgard/native/kernel-host/src/geometry.cpp:6817-6837 | live entries are those ever stored less those evicted |
| SnapshotCache.LruCache.Lookup | legacy/aethalgard/native/kernel-host/src/geometry.cpp:6808-6815 | returns the live snapshot and moves its key to the front, or nothing |
| SnapshotCache.LruCache.Store | legacy/aethalgard/native/kernel-host/src/geometry.cpp:6817-6837 | the cache after a store is the specified one |
| SnapshotCache.LruCache.Govern | legacy/aethalgard/native/kernel-host/src/geometry.cpp:6873-6876 | the eviction loop equals the specified trimming |
| SnapshotCache.LruCache.RecordPrefixOutcome | legacy/aethalgard/native/kernel-host/src/geometry.cpp:6839-6845 | one hit or one miss is counted |
| CacheRecency.LiveByLastUse | legacy/aethalgard/native/kernel-host/src/geometry.cpp:6808-6886 | over any sequence of lookups and stores the live keys stand in the order of last use, and every key a step drops was last used before all it keeps |
| ReplayEngine.CumulativeKeys | legacy/aethalgard/native/kernel-host/src/operation_hash.cpp:269-288 | the i-th key is the recurrence over the first i operations |
| ReplayEngine.KeysApart | legacy/aethalgard/native/kernel-host/src/operation_hash.cpp:140-150 | with collision-free hashing equal keys mean equal document, version and operation sequence |
| ReplayEngine.LongestLive | legacy/aethalgard/native/kernel-host/src/geometry.cpp:6936-6946 | the largest prefix whose key is live |
| ReplayEngine.DocumentEvaluator.RestoreLongest | legacy/aethalgard/native/kernel-host/src/geometry.cpp:6935-6950 | continues from the longest live prefix's state, or from a fresh one, and counts the outcome |
| ReplayEngine.DocumentEvaluator.ExecuteTail | legacy/aethalgard/native/kernel-host/src/geometry.cpp:6963-6980 | executes the remaining operations, anchors included, storing each prefix state when reuse is on, touching no cache otherwise |
| ReplayEngine.DocumentEvaluator.Evaluate | legacy/aethalgard/native/kernel-host/src/geometry.cpp:6906-6994 | without reuse the cold result and an untouched cache; the result shows the last state's unconsumed bodies in order and its book where names are asked for; with reuse the specified outcome and cache |
| ReplayEngine.ColdMeans | legacy/aethalgard/native/kernel-host/src/geometry.cpp:6906-6994 | a cold evaluation answers exactly with the unconsumed bodies, in production order, and the book, if names are asked for, of the state in which executing the unsuppressed operations in order from nothing ends |
| ReplayEngine.OneOutcomeEach | legacy/aethalgard/native/kernel-host/src/geometry.cpp:6935-6950 | an evaluation with reuse counts one hit if any nonempty prefix is live, and else one miss |
| ReplayLaws.NamesWhenAsked | legacy/aethalgard/native/kernel-host/src/geometry.cpp:6984-6992 | on a faithful kernel names come back exactly when asked for |
| ReplayLaws.RestoredIsSame | legacy/aethalgard/native/kernel-host/src/geometry.cpp:6596-6625 | restoring one's own snapshot gives the state back, unless a registry's records are lost |
| ReplayLaws.WarmEqualsCold | legacy/aethalgard/native/kernel-host/src/geometry.hpp:180-186 | a replayable warm evaluation has the cold outcome |
| ReplayLaws.WarmEqualsColdOnlyIf | legacy/aethalgard/native/kernel-host/src/geometry.hpp:180-186 | on a kernel that logs its whole input, anchors included, equal outcomes force replayability |
| ReplayLaws.WarmEqualsColdIff | legacy/aethalgard/native/kernel-host/src/geometry.hpp:180-186 | warm equals cold on every faithful kernel exactly when both requests agree on the unsuppressed operations of the shared prefix and their anchors, on the name channel they ran under, a remaining tail needs no registry and runs under the same channel, and names asked for are there |
| ReplayHistory.EvaluatedIsCold | legacy/aethalgard/native/kernel-host/src/geometry.cpp:6906-6994 | from an honest cache, for a request that may be resumed from its longest live prefix (an exact repeat of a selector document included): the cold outcome, n minus that prefix operations counted, and an honest cache again |
| ReplayHistory.ExecutedCountIff | legacy/aethalgard/native/kernel-host/src/geometry.hpp:222-224 | the count of executed operations is the number handed to the kernel exactly when no feature of the tail is suppressed, and otherwise too large |
| ReplayHistory.WarmIsColdThroughout | legacy/aethalgard/native/kernel-host/src/geometry.cpp:6906-6994 | over any sequence of evaluations, edits and evictions in which each request may be resumed when it comes, every answer is the cold one |
| ReplayHistory.FriendsAreResumable | legacy/aethalgard/native/kernel-host/src/geometry.cpp:6906-6994 | clients that never toggle suppression, anchors, names or selectors over a shared prefix meet that condition whatever was evicted |
| ReplayPairs.SecondIsColdIff | legacy/aethalgard/native/kernel-host/src/geometry.cpp:6906-6994 | whatever the budget and the weights: among the kernels that leave the longest shared prefix live, the second of two requests gets the cold answer on all of them exactly when the two are replayable there |
| ReplayPairs.PrefixLiveIff | legacy/aethalgard/native/kernel-host/src/geometry.cpp:6817-6886 | after one evaluation a prefix is live exactly when it is the last one reached, or its snapshot fits the budget together with all later ones |
| ReplayPairs.UnrelatedIsCold | legacy/aethalgard/native/kernel-host/src/geometry.cpp:6906-6994 | a second request that shares no operation, or names another document or version, always gets the cold answer |
| ReplayHistory.FreshIsHonest | legacy/aethalgard/native/kernel-host/src/geometry.cpp:6900-6902 | an empty cache is honest |
| ReplayPairs.SuppressionServedStale | legacy/aethalgard/native/kernel-host/src/geometry.cpp:6965-6971 | a feature suppressed after it was cached is still served: its key does not change |
| ReplayPairs.AnchorEditServedStale | legacy/aethalgard/native/kernel-host/src/operation_hash.cpp:63-111 | editing only the anchor of a cached selector operation leaves its key alone, and the body the old anchor picked is served |
| FaceComponents.LabelFaces | legacy/aethalgard/native/kernel-host/src/mold_tooling_feature.cpp:284-317 | two faces share a label exactly when connected through shared edges, and the labels are exactly 0 to count - 1 |
| FaceComponents.Flood | legacy/aethalgard/native/kernel-host/src/mold_tooling_feature.cpp:292-317 | floods one whole component from its first face, keeping earlier components whole |
| FaceComponents.SewIntoFreshShell | legacy/aethalgard/native/kernel-host/src/mold_tooling_feature.cpp:262-334 | refuses exactly without faces; otherwise shell c holds, in order, the faces labelled c |
| FaceComponents.Members | legacy/aethalgard/native/kernel-host/src/mold_tooling_feature.cpp:319-326 | the faces with one label, ascending, so each face is in exactly one shell |
| FaceComponents.OneShellIffConnected | legacy/aethalgard/native/kernel-host/src/mold_tooling_feature.cpp:327-333 | a bare shell comes back exactly when the faces are one connected piece |
| ToolingRoles.ChooseSides | legacy/aethalgard/native/kernel-host/src/mold_tooling_feature.cpp:1081-1089 | core and cavity are the first largest solids on their sides, or the side is empty |
| ToolingRoles.StableSortedIs | legacy/aethalgard/native/kernel-host/src/mold_tooling_feature.cpp:1106-1115 | inserts are a permutation in strict order: larger first, equal volumes in listed order |
| ToolingRoles.EvaluateSplit | legacy/aethalgard/native/kernel-host/src/mold_tooling_feature.cpp:1040-1131 | the refusals, each exactly when; otherwise bodies born in role order with their ids and consecutive output indices: the first from a solid at or below the reference, the second from one above |
| ToolingRoles.RolesAreForced | legacy/aethalgard/native/kernel-host/src/mold_tooling_feature.cpp:1081-1131 | the role order is unique, so the born bodies are determined |
| TopoOrder.DepsOf | tools/k1/order.py:35-41 | the dependencies are exactly the other definitions whose name is called, a name standing for its last definition |
| TopoOrder.Sorter.Visit | tools/k1/order.py:44-53 | places a definition and all it needs, or reports only when references are cyclic |
| TopoOrder.Sorter.Sort | tools/k1/order.py:42-56 | finishes exactly when references are acyclic, with a permutation in which every definition follows what it refers to |
| TopoOrder.SoundExcludesCycles | tools/k1/order.py:44-56 | a complete order with references first leaves no room for a cycle |
| TopoOrder.InOrderIsAcyclic | tools/k1/order.py:35-56 | a module whose definitions call only themselves and definitions above is never reported |
| Prune.Roots | tools/k1/prune.py:46-52 | the walk starts at exactly the blocks that an externally used name stands for |
| Prune.OwnerIs | tools/k1/prune.py:46-52 | a name stands for the last type that declares it as a constructor, or, if none does, for the block of that name |
| Prune.UsesIs | tools/k1/prune.py:53-60 | a block uses what the words of the last block of its name stand for |
| Prune.Keep | tools/k1/prune.py:52-62 | the kept names are exactly the reachable ones and the least closed set that holds the roots |
| Prune.Visit | tools/k1/prune.py:55-62 | one block adds exactly the unkept blocks it uses, to the kept set and to the stack |
| Prune.KeptModuleIsWhole | tools/k1/prune.py:63-66 | in the written module no kept block refers to a dropped one, and every reference means what it meant |
| TreeUnion.Round | tools/g5/jet.py:291-298 | one round pairs neighbours under consecutive ids and passes an odd last one through |
| TreeUnion.UnionAll | tools/g5/jet.py:288-299 | the loop emits the specified unions and returns their top; it fails exactly on an empty list |
| TreeUnion.TreeIsBalanced | tools/g5/jet.py:288-299 | n - 1 unions with consecutive ids, every id but the top used once, leaves in order, depth exactly the logarithm of n rounded up |
| TreeUnion.RingUnion | tools/g5/jet.py:302-314 | copies, unions and the final join, as specified, each copy being the source turned by its own angle; fails exactly without copies |
| TreeUnion.RingNumbersIff | tools/g5/jet.py:302-314 | the ring's node ids are distinct exactly when it has at most forty copies |
| TreeUnion.RingBuilds | tools/g5/jet.py:302-314 | up to forty copies the result joins the first body to all copies, in order, in a balanced tree |
| MeshCheck.CountDirected | tools/grade/mesh.py:21-24 | the counter holds the multiplicity of every directed edge |
| MeshCheck.Check | tools/grade/mesh.py:20-51 | fails exactly on an index out of range; reports watertightness, counts and Euler characteristic as defined; the volume is the content of any tetrahedra that fill the mesh, in particular a sixth of the edge product of a tetrahedron and length times width times height of a box |
| MeshVolume.FilledVolume | tools/grade/mesh.py:27-32 | if tetrahedra fill a mesh, inner walls seen once from either side, its signed volume is the sum of their contents |
| MeshVolume.TetrahedronVolume | tools/grade/mesh.py:27-32 | four outward faces have a sixth of the product of the edge vectors at one corner as their volume |
| MeshVolume.BoxVolume | tools/grade/mesh.py:27-32 | twelve outward triangles around an axis-parallel box have length times width times height as their volume |
| Meshes.UsedAre | tools/grade/mesh.py:37-37 | the used indices are exactly those that occur in a triangle |
| Meshes.LookupIs | tools/grade/mesh.py:30-30 | a lookup succeeds exactly from minus the length up to the length, negative indices counting from the end |
| MeshCheck.WatertightIff | tools/grade/mesh.py:25-26 | both counts vanish exactly when every directed edge occurs once and so does its reverse |
| MeshCheck.ClosedSumsVanish | tools/grade/mesh.py:20-32 | over a mesh closed under reversal every antisymmetric edge sum is zero |
| MeshCheck.VolumeMoves | tools/grade/mesh.py:29-32 | for any mesh, exactly how the reported volume changes under a translation |
| MeshCheck.WatertightVolumeStands | tools/grade/mesh.py:29-44 | the volume of a watertight mesh does not change under translation |
| MeshCheck.TrianglesAndEdges | tools/grade/mesh.py:40-44 | for a watertight mesh 3F + (edges from an index to itself) = 2E |
| MeshCheck.EulerIffNoRepeat | tools/grade/mesh.py:37-44 | for a watertight mesh the characteristic is V - F/2 exactly when no triangle repeats an index |
| MeshCheck.SliverIsWatertight | tools/grade/mesh.py:20-44 | a single triangle with a repeated index is reported watertight although 3F is not 2E |
| Prism.ToothCorners | tools/bench/bench.py:304-313 | the closed form of every tooth corner |
| Prism.ProfileAligned | tools/bench/bench.py:304-313 | consecutive corners differ in exactly one coordinate |
| Prism.ProfileArea | tools/bench/bench.py:304-313 | the profile encloses a signed area of 5k |
| PrismTable.BuildIsPrism | tools/bench/bench.py:452-468 | the pushes build exactly the tabulated vertices, edges, coedges, loops, faces and handles |
| PrismLaws.PrismHandles | tools/bench/bench.py:353-450 | every handle's index and generation name a live entity: generations are push positions |
| PrismLaws.PrismLoopsClose | tools/bench/bench.py:389-426 | every loop chains head to tail in vertices and in trims, and closes |
| PrismLaws.PrismUses | tools/bench/bench.py:389-406 | every edge is used by exactly one coedge in each sense |
| PrismLaws.PrismPlaces | tools/bench/bench.py:411-426 | every coedge stands in exactly one place of one loop |
| PrismSurface.PrismFan | tools/bench/bench.py:346-468 | turning around any vertex visits every coedge that starts there once: the faces around it form one cycle |
| PrismSurface.PrismLinked | tools/bench/bench.py:346-468 | any two faces are linked by faces that share edges |
| PrismOutward.PrismLooksOut | tools/bench/bench.py:389-464 | the signed area of every face's loop, each trim walked in its coedge's sense, is positive exactly when the face is marked as looking along its plane's normal |
| PrismOutward.PrismEncloses | tools/bench/bench.py:346-468 | by the divergence theorem over its faces the prism encloses a volume of 5k |
| PrismSurface.PrismIsClosedSurface | tools/bench/bench.py:346-468 | for every k >= 1 one solid with a closed, connected, consistently oriented surface without pinched vertices, V - E + F = 2, every face looking out of it and enclosing the volume 5k |
| PrismLaws.PrismGeometryMeets | tools/bench/bench.py:346-468 | for every k >= 1 edge lines and trims on their planes meet the vertices exactly |
| Plate.BuildIsPlate | tools/bench/bench.py:249-296 | the pushes build exactly the tabulated plate |
| Plate.PlateIsOpenSurface | tools/bench/bench.py:249-296 | for every h all handles resolve, every loop closes, every edge is used once, every trim meets its vertices; one face looks up, its first loop outside, with the area of the square less the holes |
| Plate.HolesInside | tools/bench/bench.py:232-239 | the rim stands on the corners of a square of side 3h + 1, every hole on those of a unit square inside it |
| Plate.HolesApart | tools/bench/bench.py:232-239 | distinct holes are disjoint |
| Feasibility.Bracket | legacy/aethalgard/native/kernel-host/src/bounded_feasibility.hpp:39-59 | stops at the first halving that works, or after eight that do not |
| Feasibility.ProbeMaxFeasible | legacy/aethalgard/native/kernel-host/src/bounded_feasibility.hpp:31-76 | nothing exactly when the magnitude is not positive or eight halvings fail; else a tested success with a known failure exactly F / 2^attempts above, at most 16 attempts, gap at most v/256, threshold enclosed for a downward-closed predicate |
| Blade.Pyth | tools/g4/blower.py:145-155 | an exact Pythagorean triple whose ratio is as near to the half-angle tangent as any fraction with a denominator up to 400, within the tolerance |
| Blade.RoundIsNearest | tools/g4/blower.py:149-149 | rounding gives a nearest integer, the even one of two |
| Blade.RadiusIsNearest | tools/g4/blower.py:167-180 | the camber keeps its start and directions, and its radius is the nearest to the wanted one that keeps all parts on the grid |
| Blade.CamberIsExact | tools/g4/blower.py:162-180 | both radius checks hold for every input, the camber running a radius along each exact direction |
| Blade.BladeIsExact | tools/g4/blower.py:183-202 | all four joints lie exactly on both adjacent circles with centres collinear, in either direction of travel |
| Blade.BladeIsSmooth | tools/g4/blower.py:183-202 | a blade thinner than its camber radius has no cusp at any joint, in either direction of travel, and its outer arc turns with the sweep |
| Blade.RevSegs | tools/g4/blower.py:379-388 | the loop returns the path walked backwards |
| Blade.ReversedTwice | tools/g4/blower.py:379-388 | walking backwards twice gives the path back |
| Blade.ReversalKeeps | tools/g4/blower.py:199-202 | walking backwards keeps joints on their circles and joins tangent |

## Left out

- Cancellation flags, deadlines, locks and token formatting: they decide when a run stops or how an answer is spelled, not what it is.
- OCCT calls (booleans, sewing, splitting, mass properties, shape maps): only the relations and numbers they return appear, as inputs. That an edge found by the explorer is always in the edge-to-face map is a consequence of how the model derives that map, so the two skips of `mold_tooling_feature.cpp:302-308` do not appear.
- SHA-256, canonical JSON, selector printing and number formatting of `operation_hash.cpp`: uninterpreted functions.
- NamingRegistry harvesting and selector resolution: a registry is its book and a list of records.
- SnapshotCache.LruCache.Lookup: the iterator map beside the recency list is not modelled, only the list order it maintains; the byte estimate of a snapshot is an arbitrary function.
- BodyPools.BodyPool.PeekVisibleBodies: TakeVisibleBodies, which returns the same list but moves the bodies out, is not modelled.
- Correspondence.ReadLineage: owner ids are taken as given keys; the source splits them off a text at the first `|`, which is the same for the ids it uses (`base`, `boss`, `hole`, `instance-n`).
- MeshCheck.Check: surface area and bounding box are not modelled, nor is the rounding of the sums.
- TopoOrder.Sorter.Sort: the text passes (splitting blocks, trimming blank lines, writing the file) are not modelled, nor the interpreter's recursion limit; a definition is its name and the identifiers it calls.
- Prune.Keep: the regular expressions that find names, constructors and external uses are not modelled; their results are inputs.
- TreeUnion.RingUnion: the text of angles and attributes is not modelled; the angles are a list.
- Prism.ProfileArea: coordinates are exact integers and the finiteness checks of the pushes, which small integers pass, are not modelled, nor 64-bit wrap-around of generations; size 0 divides by a zero length and is not covered.
- Plate.BuildIsPlate: like the prism, exact integers without 64-bit wrap-around.
- Feasibility.ProbeMaxFeasible: real arithmetic, so the guards against halving to zero or to an adjacent float never fire; a predicate is a function.
- Blade.BladeIsExact: angles, the signed area that decides the direction, representability in floating point and snapping to floats are inputs or absent; the direction is proved immaterial to the junctions.
- CorrespondenceMeaning.CorrespondenceEntries: owners have distinct names, as the source's states are built; tokens and the evaluation epoch are not modelled, and why a run refuses is not told apart.
- Blade.Pyth: the candidate error is exact where the source rounds.
- ToolingRoles.EvaluateSplit: peeking references, splitter set-up and the naming of born bodies are not modelled; the standard stable sort is specified by insertion and proved stable.
- Insert ordering by author array order, fixture parsing, viewers, renderers, test generators and engineering sizing are not part of this model.
