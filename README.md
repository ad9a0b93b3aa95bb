# GraphQL selection sets over Elasticsearch: a Dafny model

The repository serves GraphQL queries that ask for Star Wars people (`allPeople`) from an Elasticsearch index named `swapi`. It also ships a script that loads that index from a nested dataset. This project models, in Dafny, the two translations at its core and proves their properties:

- **The projector** (`transformSelectionSetToFields` in server.js). It walks the query's selection set and produces the list of source-field paths sent to Elasticsearch as the `_source` filter. Around it sits the `allPeople` resolver. The resolver picks the field node being resolved, projects it, asks the engine, and returns every hit's `_source`.
- **The bulk-body builder** (the `documents` reduce in import-data.js). For person *i* it pushes a metadata entry `{index: {_index: "swapi", _type: "person", _id: i}}`. It then pushes the person with `filmConnection` and `vehicleConnection` replaced by plain `films` and `vehicles` lists.

Files and modules:

- `wrappers.dfy` (`Wrappers`): `Option` stands for `undefined`; `Result` stands for an exception.
- `json.dfy` (`Json`): JSON values, and JavaScript property access on them.
- `selection_sets.dfy` (`SelectionSets`): the selection tree and the projector. The projector is a recursive method with a loop, proved equal to the fold `Fields`. The file also holds independent descriptions of the tree (leaf count, root-to-leaf name chains) and the full-path projector described under Findings.
- `resolver.dfy` (`Resolver`): the `allPeople` resolver. The search engine is a function parameter from request to hits.
- `bulk_import.dfy` (`BulkImport`): the per-person unwrap, the bulk body as a fold `Documents` and as a loop `BuildDocuments`, and the order of the engine calls in `run`.

The projector is modelled as the code is written. A nested selection set is projected with only the selection's own name as the parent path, not the accumulated path. So `species { homeworld { name } }` yields `"homeworld.name"`. Elasticsearch reads each `_source` entry as a dotted path from the document root, and the parameter is called `parentPath`, so the evident intent is the accumulated path. The model follows the code, and the difference is recorded under Findings.

JavaScript details the model keeps:
- `parentPath` is truthy only when it is a non-empty string.
- A present but empty selection set is an object, so it is truthy and contributes no paths.
- A missing or `null` connection wrapper throws. `filmConnection` is read first, so its error wins when both wrappers are missing.
- A wrapper that does not hold the list gives `undefined`. That object member is dropped when the body is serialised to JSON, which also hides a same-named member that the rest-spread copied in.

## Model

| member | source | states |
|---|---|---|
| `SelectionSets.TransformSelectionSetToFields` | server.js:108-120 | The loop over the selections, which appends a leaf's path or the nested result, computes exactly the fold `Fields`; an empty selection list yields an empty path list. |
| `SelectionSets.FieldsAppend` | server.js:109-119 | Projecting `a + b` gives the paths of `a` followed by those of `b`: sibling order is kept and nothing is sorted or deduplicated, so repeated selections repeat their paths. |
| `SelectionSets.FieldsLength` | server.js:112-116 | The number of paths equals the number of leaf selections reachable in the tree; a selection with a selection set emits no path of its own. |
| `SelectionSets.LeafOnlySelections` | server.js:110-116 | For selections that are all leaves, there is one path per selection, in order: the bare name when the parent path is falsy, `parent + "." + name` otherwise. |
| `SelectionSets.FieldsAreChainTails` | server.js:110-116 | Path k is derived from the k-th root-to-leaf chain in depth-first declaration order: it is the leaf's name qualified only by the name of its immediate parent (or by the given parent path at the top level). |
| `SelectionSets.AtMostTwoSegments` | server.js:110-113 | When names are GraphQL names (non-empty, no '.'), every emitted path contains at most one '.', i.e. has one or two segments. |
| `SelectionSets.NestedSelectionDropsGrandparent` | server.js:113 | `species { homeworld { name } }` projects to `["homeworld.name"]`, while the full-path projector gives `["species.homeworld.name"]`. |
| `SelectionSets.FullFieldsAreJoinedChains` | server.js:113 | The corrected projector, which passes the accumulated path down, emits for each reachable leaf, in order, the prefix and the full root-to-leaf chain joined with '.'. |
| `SelectionSets.ShallowSelectionsAgree` | server.js:110-116 | With GraphQL names and no leaf deeper than two levels, the code as written and the full-path projector give the same paths. |
| `SelectionSets.NameAndHomeworldName` | server.js:108-120 | The selection `{ name, homeworld { name } }` yields exactly `["name", "homeworld.name"]`. |
| `Resolver.FindFieldNode` | server.js:129-131 | The lookup finds nothing exactly when no field node carries the field's name; otherwise it returns the first node that does. |
| `Resolver.Sources` | server.js:143 | The result has as many elements as there are hits, in the same order, and element k is hit k's `_source`. |
| `Resolver.AllPeople` | server.js:126-144 | No matching field node fails with `FieldNotFound`. A first match without a selection set fails with `SelectionSetMissing`. Otherwise the engine gets index "swapi", type "person" and the projection of the first match's selection set, and the result is the `_source` of every hit in order, so an empty hit list gives an empty result. |
| `BulkImport.Unwrap` | import-data.js:12-22 | Fails exactly when a connection wrapper is missing or `null`, with the `filmConnection` error first. On success: both wrappers are gone; `films`/`vehicles` are present exactly when the wrapper holds that list, and equal it there; every other member passes through unchanged, nested `homeworld`/`species` included; no other member appears. |
| `BulkImport.BuildDocuments` | import-data.js:10-27 | The loop that pushes a metadata entry and a document per person computes exactly the fold `Documents`, failures included. |
| `BulkImport.DocumentsShape` | import-data.js:10-27 | For N people a successful body has 2N entries; entry 2i is the metadata entry with `_id` i, and entry 2i+1 is person i's unwrapped document. |
| `BulkImport.DocumentsFailure` | import-data.js:18-22 | The build succeeds exactly when every person can be unwrapped; when it fails, the error is that of the first person that cannot be. |
| `BulkImport.DocumentsAbortAt` | import-data.js:10-27 | Once the build has failed on a prefix of the people, the later people do not change the outcome. |
| `BulkImport.ActionEntriesDistinct` | import-data.js:14-16 | Metadata entries for different positions differ: their `_id`s differ. |
| `BulkImport.BulkIdsUnique` | import-data.js:10-27 | In a successful body, the metadata entries at positions 2i and 2j differ whenever i and j differ, so document ids are unique within a run. |
| `BulkImport.UnwrapExample` | import-data.js:12-22 | A person with `filmConnection: {films: [f1]}` and `vehicleConnection: {vehicles: [v1]}` becomes a document with `films: [f1]` and `vehicles: [v1]` and no wrapper members. |
| `BulkImport.RunCalls` | import-data.js:29-36 | `run` issues delete, then create, then one bulk write of the whole body, each only after the previous call succeeded. If the body could not be built, no call is made. |

## Findings

| source | as written | input that shows it | evidently intended | confidence | as-written member | corrected member |
|---|---|---|---|---|---|---|
| server.js:113 | a nested selection set is projected with only the selection's own name as parent path | `allPeople { species { homeworld { name } } }` gives the `_source` filter `["homeworld.name"]`, which asks for the person's homeworld and loses `species` | pass the accumulated path (`parentPath ? parentPath + "." + path : path`), giving `["species.homeworld.name"]` | high, not executed | `SelectionSets.NestedSelectionDropsGrandparent` (on `SelectionSets.Fields`) | `SelectionSets.FullFields`, proved by `SelectionSets.FullFieldsAreJoinedChains` |

`Resolver.AllPeople` calls the projector as written, because it models server.js as it stands. `SelectionSets.ShallowSelectionsAgree` shows that the two projectors differ only for leaves more than two levels deep.

## Left out

- Apollo server construction, the context factory, `listen` and console logging: network plumbing.
- The GraphQL type definitions and the sample record comment: declarations, no logic.
- Elasticsearch client construction and configuration: foreign library.
- The `search` round-trip is the `search` parameter of `Resolver.AllPeople`. The engine filtering documents by `_source` is Elasticsearch's behaviour and is not modelled, so there is no end-to-end lemma from import to query. `search` always answers: a failed or rejected search, which makes `allPeople` reject, is not represented.
- The `debugger` statement does nothing.
- Loading `dataset.json` and reaching `data.allPeople.people`: file I/O. The people are an input sequence of JSON objects; a person that is not an object is not represented.
- `client.indices.delete`, `client.indices.create` and `client.bulk`: network I/O. `BulkImport.RunCalls` records only their order and lets the outcome of delete and create be inputs. A bulk call that partly fails is not modelled.
- Selections without a name (inline fragments) are not represented; every selection has a name. Fragment spreads and aliases are not represented either. The code reads only `name.value`, so the model has no alias to read.
- JSON numbers are integers, and object member order is not kept, so the position of `films`/`vehicles` among the members is not modelled. Neither matters to what the search engine stores.
- A hit without `_source` is not represented; every hit carries one.
- Determinism of the projector is not stated as a lemma, because Dafny functions are deterministic by construction.
