# GeoLens tooling: a verified model

The repository's scripts hold the project's algorithms and protocols: the scheduler
of the CI shards, the flattener of the OpenAPI document, the quicklook generator that
runs beside the server, the seeder with its maintenance modes, the snapshot and restore
of the showcase, and the checkers that gate a release. This project models them in Dafny
and proves what they are for.

| modules | what they model |
|---|---|
| `Shards` (with `Sums`, `Ordering`) | weights, longest-first dealing and job selection of the CI shards |
| `Json`, `Flattener`, `FlattenerMeaning` | the `$defs` walk, its promotions and the merge, and what they preserve |
| `Quicklooks` | the pointer swap of concurrent quicklook runs as a state machine |
| `Catalog`, `Hurdat`, `PinnedRepair` | the server's catalog; the hurricane refresh and the pinned repair as programs over it |
| `Showcase`, `RestoreRun`, `RestoreRoundTrip` | snapshot, acceptance, the restore passes, and the round trip |
| `Coverage`, `Tiles` | scene coverage, visibility, the tile grid and stitching |
| `ComposeGate` | how Compose hands settings to the services that load them |
| `Changelog`, `ChangelogLinks` | the changelog writer and its independent verifier |
| `SurfaceGate`, `VisibleText` | the allowlist gate and the visible-text parser |

How to read it:

- Code that changes things step by step is a `class` or a `method` with its loops, proved
  against a specification function; what the script promises is then proved about that
  function. Code made of expressions is functions and lemmas.
- Where a Python `dict` or `set` is iterated, the model takes the elements in any order.
- Numbers that the scripts hold as floats are exact reals.
- In `Catalog` every API write ends in one of three ways: it returns, the server refuses
  it, or no answer arrives and it may or may not have taken effect. What a method of
  `Hurdat` or `PinnedRepair` ensures therefore holds when the script crashes at any write;
  a crash at a read is a crash before the next write. The ghost field `failed` records
  whether some call ended badly that could have succeeded; what a script promises to reach
  is stated for runs without one.
- `Quicklooks` interleaves any number of runs with dataset deletions. A call can succeed,
  raise, be cancelled, or die with the process, the last three with or without having
  taken effect; a wait for the row lock can be cut off while another run holds it.

Hypotheses, by theorem:

- `Shards.LongestFirstBound`: weights are non-negative.
- `FlattenerMeaning.FlattenKeepsMeaning` (predicate `Ordinary`): the digest separates the
  definitions that occur; a reference has nothing walkable beside it, as the walk returns
  before siblings; no dangling component reference already spells a promoted name; top-level
  schemas are not null; and no `$defs` block stands above `components.schemas`.
- `Quicklooks`: keys are fresh per draw and the row lock is exclusive. A dataset deletion
  waits for the row lock. The effect of a call, if it has one, lands no later than the call
  ends, also when it raises or is cancelled: no commit is still in doubt when the cleanup
  reads the pointer.
- `PinnedRepair.Build`: the import deduplicates on the asset; the selection has one scene
  per tile, so no asset or id twice, and includes the pinned one; no concurrent writer.
- `RestoreRoundTrip.Restore`: the server stores the values it is sent, except that it does
  not clear a description (the script says so at scripts/showcase-121-state.py:214), keeps
  the triples of a record unique, and has one collection per covered name; the snapshot
  describes an earlier well-formed state. Restoring is proved from every state that
  `verify_restorable` accepts; the seeder can also reach states it refuses, because the
  basin layer is added under another name (scripts/seed-showcase.py:7910) than the one that
  is allowed (scripts/showcase-121-state.py:271).
- `Coverage`: a layer is listed under one date, and ISO dates compare as day numbers.
- `Tiles`: the Mercator row function is a strictly decreasing bijection with an inverse.
- `ComposeGate`: Settings reads flags, numbers and texts by the rules of
  `_parses_to_default`; `:-` falls back on unset and empty, by section "Interpolation" of
  the Compose Specification.
- `ChangelogLinks.BumpIsCoherent`: at most one line starts `[Unreleased]:` and at most one
  `[X.Y.Z]:`, in any case, and the text of the new unreleased link is on no other line.
- `VisibleText.EmitsVisibleIff`: a closing tag names the element it closes. "Visible" is a
  notion of the given forest: text that no script, style, template or noscript element of
  the forest contains. HTML itself lets an unclosed script, style or template take in what
  follows it, so text the parser drops there is text no reader sees.

Three promises turn out to need more than the scripts' documentation says:

- Quicklook storage is not conserved merely because storage and cleanup queries work: a
  commit that takes effect but raises leaves the replaced image behind
  (`Quicklooks.LostCommitLeavesOldImage`). `Quicklooks.ConservedIff` says, over the calls of
  a history and their outcomes, exactly when it is conserved.
- Writer and verifier of the changelog do not agree when the label of the section below
  has white space (`ChangelogLinks.SpacedExample`); `ChangelogLinks.BumpIsCoherent` is an
  equivalence.
- Promoting by name and text does not always keep meaning
  (`FlattenerMeaning.OneTextTwoMeanings`); `FlattenerMeaning.FlattenKeepsMeaning` is an
  equivalence, and `FlattenerMeaning.CoherentIsAlike` gives a syntactic condition that
  suffices.

## Model

| member | source | states |
|---|---|---|
| `Shards.WeightNonNegative` | scripts/ci_backend_shards.py:52-59 | every weight is non-negative when the recorded times are, the untimed files' rate included, so the bound below applies to the weights the script really uses |
| `Shards.WeightsAreRight` | scripts/ci_backend_shards.py:52-59 | a recorded file weighs its recorded seconds; all others have one ratio of weight to tests, at least one test each, and at that ratio the tests of the recorded files take the seconds recorded for them; without a record the ratio is 1 |
| `Shards.Lightest` | scripts/ci_backend_shards.py:69 | the chosen shard is the first of the lightest ones |
| `Shards.LoadsAfter` | scripts/ci_backend_shards.py:69-71 | appending a file to a shard and adding its weight to the tracked load keeps the loads equal to the true shard sums |
| `Shards.Split` | scripts/ci_backend_shards.py:62-72 | the loop over the sorted files with its `loads` and `shards` lists computes exactly the specified split, by the right weights |
| `Shards.Select` | scripts/ci_backend_shards.py:111-117 | a job prints the shard of its own 1-based index, and an index outside 1..count is a usage error |
| `Shards.SplitPartitions` | scripts/ci_backend_shards.py:66-72 | the shards are sorted and their disjoint union is the list of files, nothing lost or repeated |
| `Shards.JobsRunEachFileOnce` | scripts/ci_backend_shards.py:108-116 | CI jobs 1..m together print each file exactly once |
| `Shards.RatePermutation` | scripts/ci_backend_shards.py:53-58 | the seconds-per-test rate does not depend on the order in which files are discovered |
| `Shards.SplitPermutation` | scripts/ci_backend_shards.py:62-72 | for distinct paths every permutation of the files gives identical sorted shards |
| `Shards.HeavyFileFits` | scripts/ci_backend_shards.py:68-71 | the hard case of the bound: a file heavier than a third of the best possible load still finds a shard where it fits, whatever the competing assignment |
| `Shards.NextFileBound` | scripts/ci_backend_shards.py:68-71 | the next file placed on the lightest shard stays within the bound |
| `Shards.DealBound` | scripts/ci_backend_shards.py:68-71 | every shard stays within the bound throughout the loop |
| `Shards.LongestFirstBound` | scripts/ci_backend_shards.py:62-72 | Graham's bound: for non-negative real weights and m >= 1 shards, the heaviest shard is at most 4/3 - 1/(3m) times the heaviest shard of any assignment of the same files to m shards |
| `Shards.SelfTest` | scripts/ci_backend_shards.py:120-126 | the example of the script: files of 10, 6 and 5 seconds on two shards go one to the first and two to the second |
| `Flattener.LookupFinds` | scripts/flatten_openapi_defs.py:208-212 | the reversed scan of the rename stack finds the innermost `$defs` block that binds the name, and the name it resolved to |
| `Flattener.AbortsIff` | scripts/flatten_openapi_defs.py:148-180 | the walk exits exactly if some inline reference it meets is bound by no enclosing block, or some definition it meets has no identical top-level schema of its name while its synthetic name is that of a top-level schema which differs in more than the title |
| `Flattener.Walker.Resolve` | scripts/flatten_openapi_defs.py:124-180 | one inline definition: reuse of an identical top-level schema, a first promotion under the synthetic name, or an exit on a collision, and what `promotions` holds after each |
| `Flattener.Walker.BindNames` | scripts/flatten_openapi_defs.py:229-237 | the first pass over a block binds every name of the block, in any order of the entries, or exits when one collides |
| `Flattener.Walker.Walk` | scripts/flatten_openapi_defs.py:183-304 | the mutating walk returns the rewritten node, exits exactly when the specification says so, restores the rename stack, returns the counts of visited references and blocks, and leaves in `promotions` the rewritten body of each definition met |
| `Flattener.Walker.WalkItems` | scripts/flatten_openapi_defs.py:293-302 | lists are walked item by item with the same promises |
| `Flattener.Walker.WalkEntries` | scripts/flatten_openapi_defs.py:271-291 | dict entries are walked one by one, `$defs` apart, with the same promises |
| `Flattener.Walker.WalkBlock` | scripts/flatten_openapi_defs.py:227-281 | a dict with a `$defs` block: frame pushed, bodies walked, siblings walked in the block's scope, frame popped, block dropped and counted |
| `Flattener.Walker.WalkBody` | scripts/flatten_openapi_defs.py:243-266 | the second pass writes the rewritten body back under its synthetic name and title, and never touches a reused top-level schema |
| `Flattener.Walker.WalkBodies` | scripts/flatten_openapi_defs.py:239-267 | the second pass as a whole, sibling references included |
| `Flattener.Merge` | scripts/flatten_openapi_defs.py:369-375 | promotions are added beside the existing schemas and never replace one |
| `Flattener.Flatten` | scripts/flatten_openapi_defs.py:353-375 | the script from document to document: it is refused exactly on an unbound reference or a clash, so never if all references are bound and no top-level schema has a synthetic name; it crashes exactly if `components` or the document is no dict, or if something is promoted and no schemas are there; otherwise it returns the flattened and merged document |
| `FlattenerMeaning.CountsAreComplete` | scripts/flatten_openapi_defs.py:196 | with nothing beside a reference, the two counts are the numbers of inline references and `$defs` blocks of the whole input |
| `FlattenerMeaning.RewriteIsFlat` | scripts/flatten_openapi_defs.py:186-196 | no `$defs` block and no `#/$defs/` reference survives in a rewritten node, whatever scopes it stood in |
| `FlattenerMeaning.RewrittenRefsExist` | scripts/flatten_openapi_defs.py:219-221 | the component references of a rewritten node are exactly those the walk writes and those it leaves as they stand, and each one it writes points at a reused or a promoted schema |
| `FlattenerMeaning.RewriteAgree` | scripts/flatten_openapi_defs.py:174-180 | two inline definitions with one text whose free names bind alike are rewritten to one body, so keeping either promotion is right |
| `FlattenerMeaning.OneTextTwoMeanings` | scripts/flatten_openapi_defs.py:171-180 | the condition can fail: an otherwise ordinary document with two parts that the walk rewrites to one text, so that whatever ends up in `components.schemas` one of the two parts unfolds differently than before |
| `FlattenerMeaning.FlatIsUntouched` | scripts/flatten_openapi_defs.py:143-146 | a schema that survives the walk is closed: it is rewritten to itself and holds no inline reference |
| `FlattenerMeaning.RetitledAlike` | scripts/flatten_openapi_defs.py:153-157 | overwriting the title changes nothing else of a promoted schema's meaning |
| `FlattenerMeaning.ClosedAnywhere` | scripts/flatten_openapi_defs.py:143-146 | a closed schema means the same at the top level and in any scope, so reusing a top-level twin is right |
| `FlattenerMeaning.TargetKept` | scripts/flatten_openapi_defs.py:256-264 | to every depth, the component a definition resolves to unfolds as the definition does in its own scope, the rewritten title masked |
| `FlattenerMeaning.MeaningKept` | scripts/flatten_openapi_defs.py:183-304 | to every depth, a rewritten node unfolded through `components.schemas` equals the original unfolded through its innermost `$defs` scopes |
| `FlattenerMeaning.FaithfulWorld` | scripts/flatten_openapi_defs.py:353-375 | an ordinary document whose equal definitions mean the same stays in the situation the meaning theorem needs after walk and merge |
| `FlattenerMeaning.FlattenKeepsMeaning` | scripts/flatten_openapi_defs.py:353-375 | for an ordinary document the whole script keeps, to every depth, the meaning of every part of the document, every part of `components` beside the schemas, every top-level schema and every inline definition, if and only if inline definitions of the input with one name and text, not reused, mean the same in their scopes |
| `FlattenerMeaning.MergedSchemas` | scripts/flatten_openapi_defs.py:256-264 | the merged schemas are the top-level ones, rewritten, and one for each synthetic name of a definition without a twin: the rewritten body of such a definition, its title, if it has one, replaced by its own key |
| `FlattenerMeaning.PromotedTitlesDiffer` | scripts/flatten_openapi_defs.py:153-157 | no two promoted schemas share a title, so generated classes keep apart |
| `FlattenerMeaning.CoherentIsAlike` | scripts/flatten_openapi_defs.py:171-180 | a condition that can be read off the document and is enough: equal definitions bind their free names to equal texts |
| `FlattenerMeaning.CoherentDetermines` | scripts/flatten_openapi_defs.py:174-180 | and under it the merged document is one and the same whichever of the equal definitions wrote a promoted body |
| `FlattenerMeaning.FlattenEliminates` | scripts/flatten_openapi_defs.py:362-375 | the merged document holds no inline reference and no `$defs` block; each of its component references was written by the walk or stood in the input where the walk leaves it; and each one written, in the document or in a promoted body, is a top-level or a promoted schema, in the merged `components.schemas` when the top-level schemas stand on a plain path |
| `Quicklooks.StepKeeps` | backend/scripts/generate_vector_quicklooks.py:81-145 | every step of every run, deletion, failure, cancellation and process death, a wait for the row lock that is cut off included, keeps the protocol's invariant |
| `Quicklooks.HistoryKeeps` | backend/scripts/generate_vector_quicklooks.py:81-145 | so does every interleaving of steps of any number of runs |
| `Quicklooks.PointersNameObjects` | backend/scripts/generate_vector_quicklooks.py:94-118 | in every history a committed pointer to a script-written key names an object in storage |
| `Quicklooks.CallsSpareLiveImages` | backend/scripts/generate_vector_quicklooks.py:23-33 | no call, cleanup included, removes an image that a committed pointer names before or after it |
| `Quicklooks.OneRowDone` | backend/scripts/generate_vector_quicklooks.py:94-126 | alone with its row, a run whose calls succeed ends with the row naming the new image, the replaced image gone, if there was one, and nothing else changed |
| `Quicklooks.ChosenIsPublished` | backend/scripts/generate_vector_quicklooks.py:94-126 | among any other runs and deletions, a run whose calls all succeed comes to name its stored image, and what it replaced is gone in the end; or its row is gone, and so is its image |
| `Quicklooks.GoneRunCleansUp` | backend/scripts/generate_vector_quicklooks.py:112-117 | a run whose row was deleted takes its image away again |
| `Quicklooks.CallEndsRun` | backend/scripts/generate_vector_quicklooks.py:127-140 | a call that raises leaves the run in the cleanup, to go on afterwards, and a failed removal of the replaced image is only reported; a cancelled call leaves it in the cleanup for good, a killed one at once |
| `Quicklooks.CancelledEnds` | backend/scripts/generate_vector_quicklooks.py:127-134 | after a cancelled call the run goes on to no other row |
| `Quicklooks.StoredIff` | backend/scripts/generate_vector_quicklooks.py:94-140 | an image of a surviving dataset is in storage after a history exactly if it was there or some `put` of it took effect, and no `delete` of it did |
| `Quicklooks.LeftIff` | backend/scripts/generate_vector_quicklooks.py:94-140 | and it is left behind exactly if it is in storage and was left behind before, or some call of the history ended so that the run gave it up |
| `Quicklooks.ConservedIff` | backend/scripts/generate_vector_quicklooks.py:94-140 | once all runs have finished, storage holds exactly the named images of surviving datasets if and only if the history spoils none: no orphan of the start, and no stored image given up by a call (a death after the `put`, a commit that takes effect without returning, a failed rollback, check or `delete`), goes without a later `delete` that takes effect |
| `Quicklooks.CleanHistoriesConserve` | backend/scripts/generate_vector_quicklooks.py:94-140 | from a store without orphans, histories without process death, without a commit whose answer is lost, and with working cleanup calls conserve storage |
| `Quicklooks.LostCommitLeavesOldImage` | backend/scripts/generate_vector_quicklooks.py:118-140 | working storage and cleanup queries are not enough: a commit that takes effect but raises leaves the replaced image behind, shown on a concrete history |
| `Catalog.OwnMapsBelow` | scripts/seed-showcase.py:787-829 | this account's maps of a name, newest first, and the first of them is what a lookup by name resolves to |
| `Catalog.OwnTitledBelow` | scripts/seed-showcase.py:1220-1234 | this account's datasets of a title, newest first, each once |
| `Catalog.Server.DeleteDataset` | scripts/seed-showcase.py:1167-1175 | a dataset's layers go with it on every map; the call may return, be refused, or be cut off with or without effect |
| `Catalog.Server.AddLayer` | scripts/seed-showcase.py:2157-2158 | a layer is added to an existing map over an existing dataset or not at all |
| `Hurdat.Derive` | scripts/seed-showcase.py:2307-2342 | a forced analysis registers a new dataset and changes nothing that exists, however the call ends |
| `Hurdat.BuildChain` | scripts/seed-showcase.py:4437-4520 | the replacement chain is built beside the old one: nothing that exists changes, at most one dataset of each chain title is new, and the regions only if there were none; a completed build has its three datasets |
| `Hurdat.RemoveLayers` | scripts/seed-showcase.py:2546-2547 | while the old layers come off, the new one stays |
| `Hurdat.Swap` | scripts/seed-showcase.py:2543-2548 | from the first call of the swap on the map is never without an exposure layer, and a completed swap leaves exactly the new one |
| `Hurdat.DeleteSuperseded` | scripts/seed-showcase.py:2554-2573 | deleting the superseded datasets of a title costs the map nothing, and if no delete is refused only the new one is left |
| `Hurdat.DeleteOldChain` | scripts/seed-showcase.py:2554-2573 | the same for the three titles in reverse dependency order, whatever orphans earlier runs left |
| `Hurdat.Refresh` | scripts/seed-showcase.py:2501-2573 | one run, ending anywhere: the map keeps its id and, if it had one, always has an exposure layer over an existing dataset; it adds nothing but the new chain, and every layer that is neither an exposure layer of the map nor over an old chain dataset is as it was; a seeded run of whose calls none fails finishes with no delete refused, and a finished run shows a new dataset and, with no delete refused, has exactly one layer and one dataset per chain title |
| `Hurdat.Refreshes` | scripts/seed-showcase.py:2464-2585 | the same over any number of runs, each ending at any call: a last run of whose calls none fails settles the chain whatever the earlier ones left |
| `PinnedRepair.DoomedIs` | scripts/seed-showcase.py:6703-6734 | the deletion set is exactly the scenes of this account that are a raster layer of an own map of the name and a layer of no other map |
| `PinnedRepair.Preflight` | scripts/seed-showcase.py:6735-6772 | the scan refuses exactly when a selected asset is held by a dataset that is neither deleted nor resolvable, and otherwise names a proven holder for each held asset |
| `PinnedRepair.DoomedDeleted` | scripts/seed-showcase.py:6713-6734 | deleting a scene of the deletion set costs no other map a layer |
| `PinnedRepair.DeleteScenes` | scripts/seed-showcase.py:6773-6793 | the scenes go first; the first failure ends the run with every other map as it was |
| `PinnedRepair.StacImport` | scripts/seed-showcase.py:6810-6816 | the import creates an asset only if no dataset held it before and no earlier item created it, skips one only if it is held, may fail on any other, and changes nothing else |
| `PinnedRepair.ScenesResolve` | scripts/seed-showcase.py:6829-6857 | after a passed preflight every selected scene resolves to a dataset that holds its asset under the seeder's title: a created one or the proven holder |
| `PinnedRepair.ResolveScenes` | scripts/seed-showcase.py:6823-6871 | the loop over the results computes the scenes in order: the created dataset, the proven holder, or for a skipped item without one the newest own dataset under its title, which for the pinned scene must be confirmed by its origin; and the pinned scene is the resolution of the pinned item |
| `PinnedRepair.Fallback` | scripts/seed-showcase.py:6829-6857 | the fallback is the newest own dataset under the title, with the origin confirmed for the pinned scene, and only an unconfirmed pinned scene or a missing title gives none |
| `PinnedRepair.ReplaceLayers` | scripts/seed-showcase.py:2137-2159 | a row ends with exactly the fresh stack, one layer each, and no other row changes, however the run ends |
| `PinnedRepair.StackShows` | scripts/seed-showcase.py:6872-6883 | a row with the stack of the resolved scenes has one layer for each item and no other: for each place one raster layer of that order, over a dataset that holds the asset of the item under its title, with the caption of the item in its name |
| `PinnedRepair.RowsToRebind` | scripts/seed-showcase.py:2162-2182 | the rows are the newest and the retained ones, each once, the newest first |
| `PinnedRepair.RebindRows` | scripts/seed-showcase.py:2185-2202 | every row gets the same fresh stack and no other map changes |
| `PinnedRepair.Clear` | scripts/seed-showcase.py:6634-6808 | the force branch aborts, with nothing written, exactly without an admin or when the preflight fails; it dies only when a call fails; otherwise the deletion set is gone, and the rows of the name are all kept or all gone, as asked |
| `PinnedRepair.Rebuild` | scripts/seed-showcase.py:6809-6943 | the import, the resolution of the scenes and the rebinding or the new row: after a forced clearing it ends badly only if a call failed that could have succeeded |
| `PinnedRepair.Build` | scripts/seed-showcase.py:6596-6943 | a run that ends before the deletes changes nothing and no run costs another map a layer; a forced run aborts exactly without an admin or if a selected asset is held by a dataset that is neither deleted nor of this account under the seeder title; otherwise it ends well unless a call fails; it then has deleted exactly the scenes layered only here, and every owned row of the name, or the one new row when they are not kept, has for each item in order exactly one layer over a holder of its asset; so has the row of a first build |
| `Showcase.SnapMaps` | scripts/showcase-121-state.py:97-119 | the maps part of a snapshot: refused exactly when two own maps share a covered name, otherwise each own covered map under its name and nothing else |
| `Showcase.SnapDatasets` | scripts/showcase-121-state.py:120-142 | the same for datasets, with their own keywords |
| `Showcase.SnapCollections` | scripts/showcase-121-state.py:143-151 | every covered name is in the snapshot with one of its collections, as it is, and nothing else is; all of them are described exactly when no covered name is used twice, for of two the last is kept without a refusal |
| `Showcase.Unrestored` | scripts/showcase-121-state.py:400-439 | the list names, once each, exactly the saved rows a fresh read does not match, the new maps and datasets that are public, and the new collections; it is empty exactly when all saved rows match and nothing new is public |
| `RestoreRun.DeltaRestores` | scripts/showcase-121-state.py:296-302 | sending only the differing fields restores all of them, except a description that would have to be cleared; nothing differs, nothing is sent |
| `RestoreRun.LayersRestored` | scripts/showcase-121-state.py:303-315 | updating the changed layers and removing the extra ones leaves exactly the saved layers; no request goes out exactly when they already match |
| `RestoreRun.RestoreMap` | scripts/showcase-121-state.py:293-316 | one map ends as saved, and is written exactly if it did not match |
| `RestoreRun.RestoreMaps` | scripts/showcase-121-state.py:293-316 | the pass: saved maps end as saved, all other maps are untouched, and a write goes out exactly if some saved map does not match |
| `RestoreRun.RestoreKeywords` | scripts/showcase-121-state.py:329-360 | own keyword triples end as the saved ones, each once; kept and inherited keywords stay the rows they were; a write goes out exactly if the triples differ |
| `RestoreRun.RestoreDatasets` | scripts/showcase-121-state.py:319-360 | the dataset pass: fields and keywords as saved, other datasets untouched, a write exactly if some saved dataset does not match |
| `RestoreRun.RestoreCollections` | scripts/showcase-121-state.py:363-382 | the collection pass: description and membership as saved, others untouched, a write exactly if some saved collection does not match |
| `RestoreRun.HideMaps` | scripts/showcase-121-state.py:386-389 | new maps end private, at one write each, and nothing else about any map changes |
| `RestoreRun.HideDatasets` | scripts/showcase-121-state.py:390-393 | new datasets end private, at one write each, and nothing else about any dataset changes |
| `RestoreRun.DropCollections` | scripts/showcase-121-state.py:394-397 | new collections are deleted, at one write each, and no other |
| `RestoreRoundTrip.MapsAreReady` | scripts/showcase-121-state.py:260-279 | an accepted state gives the map pass what it needs: the saved ids with their layers on the saved datasets |
| `RestoreRoundTrip.StaysValid` | scripts/showcase-121-state.py:442-453 | a restore keeps the server state well formed, so it can be saved and restored again |
| `RestoreRoundTrip.ReadsBack` | scripts/showcase-121-state.py:400-457 | after the passes a fresh read matches everything saved exactly when no saved description had to be cleared, and what is new is private or gone |
| `RestoreRoundTrip.SettledAccepted` | scripts/showcase-121-state.py:244-290 | a restored state is accepted again and matches already |
| `RestoreRoundTrip.AcceptableIff` | scripts/showcase-121-state.py:244-290 | what the acceptance compares on two snapshots, read off the state: target and owner, the saved rows with their ids, owners and layers, only layers of the known repairs beside them, and no new covered collection but the own client pages over new or seeded datasets |
| `RestoreRoundTrip.RepairsUndone` | scripts/showcase-121-state.py:269-279 | a restore takes a layer off a map only if the map is saved and the layer is one of the known repairs, and deletes a collection only if it is the own client pages, new since the snapshot |
| `RestoreRoundTrip.SettledIsBack` | scripts/showcase-121-state.py:400-439 | a state that matches its snapshot is the saved one: every covered map, dataset and collection is as it was, and nothing covered that is new shows |
| `RestoreRoundTrip.Restore` | scripts/showcase-121-state.py:442-457 | the whole run, from state to state: it is refused exactly in the states above and then writes nothing; otherwise it undoes only the known repairs and ends restored exactly when no saved description had to be cleared, everything covered then as in the saved state; the writes counted at the server are one for each new row and those for saved rows, which are none exactly when every saved row already matches; run again it changes nothing and writes to no saved row |
| `Coverage.Cuts` | scripts/seed-showcase.py:5471-5478 | the cut positions: ascending, with both ends and the clipped ends of every cover |
| `Coverage.CellIsWhole` | scripts/seed-showcase.py:5479-5486 | between neighbouring cuts a cover covers all or nothing |
| `Coverage.OpenPointOpenCell` | scripts/seed-showcase.py:5479-5486 | a point outside every cover lies in a cell whose middle is outside every cover |
| `Coverage.Uncovered` | scripts/seed-showcase.py:5465-5486 | for a rectangle with area: true exactly when some point of it lies outside every closed cover, for any finite list of covers; a degenerate rectangle gives false |
| `Coverage.OverlapsIff` | scripts/seed-showcase.py:5489-5496 | two rectangles with area overlap exactly when some point is strictly inside both |
| `Coverage.PartHolds` | scripts/seed-showcase.py:5527-5532 | the clipped part of a scene is its intersection with the view, and a scene with a view point meets the view |
| `Coverage.Preferred` | scripts/seed-showcase.py:5513-5517 | the preferred list is exactly the scenes of the date that meet the view |
| `Coverage.OrbitVisibility` | scripts/seed-showcase.py:5499-5535 | each layer of each pass gets the visibility its case prescribes, and no other key appears |
| `Coverage.NothingLost` | scripts/seed-showcase.py:5505-5511 | a view point inside a preferred-date scene, or inside an older scene whose view part has area, lies in some visible scene |
| `Coverage.NothingDrawnOver` | scripts/seed-showcase.py:5505-5511 | no visible newer scene shares area inside the view with a preferred-date scene |
| `Coverage.NothingIdle` | scripts/seed-showcase.py:5505-5511 | what is shown meets the view, and another date shows only where the preferred one leaves a point open |
| `Coverage.ShownIff` | scripts/seed-showcase.py:5505-5511 | a scene with area in the view shows exactly if it is of the preferred date, or it holds a view point the date leaves open and is older, or newer without sharing area in the view with a scene of the date |
| `Tiles.InTileIff` | scripts/seed-showcase.py:5374-5381 | a point is in a tile's box exactly when its grid coordinates are in the tile's cell, edges excluded or included |
| `Tiles.PointInItsTile` | scripts/seed-showcase.py:5367-5371 | the computed tile holds the point exactly when truncation does not round a coordinate up towards zero |
| `Tiles.InRangeInTile` | scripts/seed-showcase.py:5367-5381 | at every zoom an in-range point lies in the box of its tile and the tile is on the grid |
| `Tiles.TileSplits` | scripts/seed-showcase.py:5398-5400 | a tile is exactly the union of its sixteen descendants two zooms down |
| `Tiles.OneChild` | scripts/seed-showcase.py:5398-5400 | no point is in two tiles of one zoom |
| `Tiles.BoxSplits` | scripts/seed-showcase.py:5398-5400 | the closed box is the union of the sixteen closed boxes |
| `Tiles.InteriorsDisjoint` | scripts/seed-showcase.py:5398-5400 | boxes of different tiles of one zoom share no interior point |
| `Tiles.ChildOfItsTile` | scripts/seed-showcase.py:5367-5371 | the point's tile two zooms down is one of the sixteen |
| `Tiles.PixelPlace` | scripts/seed-showcase.py:5398-5400 | the tile a canvas pixel is drawn from lies as many quarters from the west edge of the box as the pixel from the left, and, in the projection, from its north edge as the pixel from the top |
| `Tiles.ZoomZero` | scripts/seed-showcase.py:5367-5381 | at zoom 0 every in-range point is in tile (0, 0), which spans the whole map |
| `Tiles.StitchTiles` | scripts/seed-showcase.py:5388-5407 | nothing is returned exactly when Pillow is missing or some of the sixteen tiles is empty; otherwise each canvas pixel is the pixel of the child tile it falls in |
| `ComposeGate.CoverageErrors` | scripts/check_env_doc_drift.py:703-737 | reports nothing exactly when api and worker receive every field they must and none they must not, and migrate its own settings and those of its anchors, which exist |
| `ComposeGate.EnvironmentErrors` | scripts/check_env_doc_drift.py:619-683 | reports nothing exactly when no entry of the service is at fault, and collects exactly the listed entries set explicitly |
| `ComposeGate.ComposeSettingsErrors` | scripts/check_env_doc_drift.py:596-700 | reports nothing exactly when every file passes, every listed exception is used, and the tables name only fields |
| `ComposeGate.ReadsAsDefault` | scripts/check_env_doc_drift.py:578-587 | a fallback is taken for the default exactly when the field reads it as the default |
| `ComposeGate.AcceptedIff` | scripts/check_env_doc_drift.py:622-683 | what an entry must be to be accepted: bare, for a field that is not listed and whose empty value Settings can take; explicit, if it is listed or no field; the host value, for a required field; a fallback, if Settings reads it as the literal default |
| `ComposeGate.EntryHonest` | scripts/check_env_doc_drift.py:622-683 | an accepted entry shows Settings its default on every host that leaves the variable unset or empty, and the host's value otherwise |
| `ComposeGate.EntryRefusedRightly` | scripts/check_env_doc_drift.py:633-683 | for flag, number and text defaults a bare entry, or one with a non-blank fallback, is refused only if some host makes Settings hold something else |
| `ComposeGate.GateSound` | scripts/check_env_doc_drift.py:596-700 | soundness of the gate: in every file and service, every listed field that is not exempt and has a default other than None is honest on every host |
| `ComposeGate.HostValueArrives` | scripts/check_env_doc_drift.py:604-611 | whatever its default, a field that is not exempt gets the value the host sets |
| `ComposeGate.FieldsDelivered` | scripts/check_env_doc_drift.py:716-727 | a passing file delivers to api and worker exactly the fields that are not excluded there |
| `Changelog.CompareLinkOf` | scripts/check_version_coherence.py:90-93 | the compare link the writer makes is read back by the verifier's pattern with its two ends |
| `Changelog.CompareLinkIff` | scripts/check_version_coherence.py:90-93 | the pattern of the verifier matches exactly the links from a version to a version tag or the head, with these two ends |
| `Changelog.HeadingIff` | scripts/bump_version.py:274-292 | a line is a heading of a label exactly if it starts with it in brackets behind two number signs |
| `Changelog.DefinitionReads` | scripts/bump_version.py:270-271 | a written definition line is read back as a link of its label exactly when its url has no white space, and is no heading |
| `Changelog.PrevVersion` | scripts/bump_version.py:274-292 | the label found is that of the first heading below the first heading of the version that is not the unreleased one, and none is found exactly if there is no such heading |
| `Changelog.PrevKept` | scripts/bump_version.py:353-361 | rewriting a link line does not move the sections |
| `Changelog.PrevInserted` | scripts/bump_version.py:353-361 | nor does inserting one |
| `ChangelogLinks.CheckNoDuplicates` | scripts/bump_version.py:307-325 | refuses exactly when two link definitions have labels that differ at most in case |
| `ChangelogLinks.ValidateLinks` | scripts/bump_version.py:328-350 | passes exactly when there is no duplicate label, an unreleased line, and a section below the version's |
| `ChangelogLinks.BumpLinks` | scripts/bump_version.py:353-406 | refuses without writing when validation fails; otherwise writes the specified text, and writes nothing when it is the same |
| `ChangelogLinks.BreakIs` | scripts/bump_version.py:390-392 | the text replacement puts the version's line below the unreleased one when the new link text is nowhere else |
| `ChangelogLinks.BumpText` | scripts/bump_version.py:353-406 | the bumped text, spelled out: the first unreleased line compares the release with the head; the line of the release, rewritten in place or put below it, compares the section below with the release; every other line is as it was |
| `ChangelogLinks.DuplicateLabels` | scripts/check_version_coherence.py:246-261 | one entry for each extra occurrence of a label, in order, with the label and line of its first definition, and nothing else |
| `ChangelogLinks.ChangelogUrls` | scripts/check_version_coherence.py:219-243 | a lookup finds the first definition of a label, compared by case fold, if it has that spelling |
| `ChangelogLinks.CheckLinks` | scripts/check_version_coherence.py:291-370 | reports nothing exactly when labels are unique, the unreleased link compares the release with the head, and the release link compares with the section below it; each extra occurrence of a label is among the failures |
| `ChangelogLinks.BumpIsCoherent` | scripts/bump_version.py:353-361 | writer and verifier agree: on the text a bump leaves the verifier reports nothing exactly when the label of the section below has no white space |
| `ChangelogLinks.SpacedLabelDisagrees` | scripts/bump_version.py:353-361 | the condition is met by real text: for every release above a section labelled `1.0.0 x` the writer accepts the changelog and the verifier reports what it wrote |
| `ChangelogLinks.SpacedExample` | scripts/bump_version.py:353-361 | one such changelog, for release 1.1.0 |
| `ChangelogLinks.BumpTwice` | scripts/bump_version.py:364-365 | a bumped text validates and another bump leaves it alone |
| `ChangelogLinks.BumpThenCheck` | scripts/bump_version.py:353-406 | bump, check, bump again, by the methods themselves: the second bump is a no-op and the check is clean under the same condition |
| `SurfaceGate.PathMatchesIff` | scripts/check_public_surface.py:119-146 | a path matches exactly when it can be cut into one run of segments per pattern segment, any run for `**` and one matching segment otherwise; an empty pattern is one empty segment |
| `SurfaceGate.ValidateAllowlist` | scripts/check_public_surface.py:159-202 | keeps the sound entries in order, and reports exactly the errors that apply, none of them exactly when the allowlist is well formed with distinct ids |
| `SurfaceGate.Observed.IsAllowlisted` | scripts/check_public_surface.py:205-218 | the first unused entry for the hit is used up, if there is one |
| `SurfaceGate.Observed.ScanFile` | scripts/check_public_surface.py:228-250 | the hits of a file in order, each absorbed by an entry or reported |
| `SurfaceGate.HitsAre` | scripts/check_public_surface.py:228-250 | the hits of a scan are exactly the matches: each as often as its pattern finds that text in that line, counted from 1, of that file |
| `SurfaceGate.ScanBalances` | scripts/check_public_surface.py:265-266 | with distinct ids each key leaves max(0, hits - entries) violations and max(0, entries - hits) unused entries |
| `SurfaceGate.GateBalances` | scripts/check_public_surface.py:262-274 | neither violations nor stale entries are left exactly when the multisets of hits and of allowlist keys are equal |
| `SurfaceGate.ScanRepository` | scripts/check_public_surface.py:253-278 | the gate passes exactly when the allowlist is well formed with distinct ids and its keys are the hits, each as often; the errors are exactly those that apply |
| `VisibleText.VisibleTextParser.HandleStartTag` | scripts/check_deployed_surface.py:100-103 | the stack after an opening tag |
| `VisibleText.VisibleTextParser.HandleEndTag` | scripts/check_deployed_surface.py:105-113 | the popping loop leaves the stack below the topmost element of that name, and an unknown name changes nothing |
| `VisibleText.VisibleTextParser.Feed` | scripts/check_deployed_surface.py:92-117 | a run of events is the run of the specified machine |
| `VisibleText.HiddenRun` | scripts/check_deployed_surface.py:92-117 | inside a hidden element nothing is emitted and its stack entries survive, whatever it holds; above them are exactly the names that stay open |
| `VisibleText.VisibleRun` | scripts/check_deployed_surface.py:92-117 | for every forest with matching tags the events emit, in order, the text with no hiding ancestor up to the first visible element that hides and stays open; the stack ends empty exactly when there is none |
| `VisibleText.EmitsVisibleIff` | scripts/check_deployed_surface.py:92-117 | for every forest with matching tags the parser emits exactly the text with no hiding ancestor if and only if none of that text stands behind a visible element that hides and stays open |
| `VisibleText.ProperRun` | scripts/check_deployed_surface.py:92-117 | when all hiding elements are closed the parser emits exactly the text with no hiding ancestor, in order, and its stack is empty again |
| `VisibleText.UnclosedScriptHides` | scripts/check_deployed_surface.py:92-117 | an unclosed script hides the text after it, which in the forest no hiding element contains: one input at which the equivalence fails on both sides |
| `VisibleText.WordsAcross` | scripts/check_deployed_surface.py:333 | no word runs across a white-space character, so joining parts with a space never merges words |
| `VisibleText.NormalizeText` | scripts/check_deployed_surface.py:329-333 | the normalized text consists of exactly the words of the emitted texts, in order, which are the visible ones when none is lost behind an element that stays open |

## Left out

- HTTP, subprocesses, `git ls-files`, files, sleeps and retries: only the state they change is modelled.
- Regular expressions, `fnmatchcase`, JSON text and SHA-1: matching is an abstract function, JSON a datatype, the digest an abstract function that separates what occurs.
- Floating-point rounding and the trigonometry of the Mercator projection.
- `_file_of`, `collect_timings` and the discovery of test files (scripts/ci_backend_shards.py:34-49, 75-96): they only read the tree or sum reports.
- `_mark_binary_uploads` and the key order of the output (scripts/flatten_openapi_defs.py:89-104, 307-330): they run after the merge and do not touch references.
- The rows a quicklook run selects, the drawing itself and the counters (backend/scripts/generate_vector_quicklooks.py:59-92): any row may be chosen at any time, which includes every order of a batch.
- The contents of the hurricane tracks, of which the in-place reupload is a call that can fail and changes no id; metadata enrichment and styling (scripts/seed-showcase.py:2574-2584), which change no layer and no dataset of the chain.
- The STAC search and the view settings of the pinned map (scripts/seed-showcase.py:6545-6593, 6931-6940).
- `Quicklooks.PointersNameObjects`: a commit whose effect lands after its call has ended is not modelled. If the cleanup reads the old pointer and deletes the new image before such a commit lands, the committed quicklook URI of the dataset names no object.
- Visibility propagation, quotas, caching windows, the sleep before a restore and pagination of listings.
- `RestoreRun.Api.AddMembers`: a saved member that no longer exists as a dataset is stored all the same, because the script does not say what the server answers.
- `RestoreRun.RestoreDataset`: keywords hang off the dataset row, so a dataset whose catalog record was replaced is not told apart.
- `Showcase.SnapMaps`: the name and the title are kept apart from the saved fields, as rows are matched by them.
- `unrestorable_changes` (scripts/showcase-121-state.py:183-241): a list of checks before a seed run, without a promise about the restore.
- `_orbit_crop` and the choice of passes (scripts/seed-showcase.py:5343-5364, 5414-5448).
- The encoding of the stitched picture, and tiles that are not 256 pixels wide.
- The scanner of the Compose files and of the Settings classes (scripts/check_env_doc_drift.py:222-306, 502-575): the gate starts from parsed entries, and the tables of the gate are a parameter, so its theorems hold for every content of them.
- `ComposeGate.ComposeSettingsErrors`: the text of the messages and their order; which entry is at fault and why is `ComposeGate.Verdict`.
- The other version sites of the bump and their checks, and the section text of a release (scripts/bump_version.py:60-262, scripts/check_version_coherence.py:97-204).
- `ChangelogLinks.BumpLinks`: lines are separated by newlines only; other characters that `splitlines` breaks at do not occur. Digits are the ASCII ones.
- `SurfaceGate.ScanRepository`: the candidate files are given, and the order of the report is not modelled.
- `VisibleText.NormalizeText`: the tokenizer of the standard library is not modelled; the forest of elements and its events are given, and a closing tag without its element is not part of a forest.
- Prose, data feeds and styling literals of the seeder, Alembic, Playwright, Vite and ESLint configuration, the SDK patches and the benchmarks.
