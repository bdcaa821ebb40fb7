# GTASceneSync exporters in Dafny

GTASceneSync is a Blender add-on that writes GTA San Andreas map files from
the selected objects. The two files are:

- an item definition file (`.ide`): one `objs` record per distinct model
  name, carrying its texture dictionary, draw distance and flag;
- an item placement file (`.ipl`): one `inst` record per object, carrying
  the model id, its position and its rotation.

This project models the logic of both exporters as pure functions over
immutable scene records, and proves what they promise.

- `Names` (names.dfy) holds the two name cleaners. `CleanName` drops one
  trailing `.<digits>` and `CleanCollectionName` drops one trailing `.dff`
  in any case. Both keep the behaviour of Python's `$` without MULTILINE,
  which also matches just before a final newline.
- `Scene` (scene.dfy) holds the object record and the `IDE_FLAGS`
  enumeration. It also holds the canonical key of an object, the mesh
  filter and the two starting-id fallbacks. The key is the cleaned name of
  the object's first collection, otherwise its cleaned own name. The
  placement exporter's key replaces an empty name by `Unnamed`.
- `Allocation` (allocation.dfy) models the insertion-ordered dictionary
  and the counter that both exporters use: first-seen id allocation.
- `IdeExport` (ide.dfy) builds the definition export: the path rule, the
  records and the lines `objs` … `end`.
- `IplExport` (ipl.dfy) builds the placement export: the records, the
  rotation conversion and the lines `# Exported with GTASceneSync`, `inst`,
  … `end`.
- `Quaternion` (quaternion.dfy) holds the exact Hamilton product and the
  game's axis conversion, which negates x and z.
- `Text` (text.dfy) holds ASCII case folding, decimal rendering and
  parsing of integers, and comma-separated lines.
- `CrossCheck` (crosscheck.dfy) relates the two exporters and works
  through two concrete scenes.
- `Wrappers` (wrappers.dfy) holds `Option` and `Result`.

An export that finds no mesh returns `Failure(NoMeshSelected)`. This is the
operator's `CANCELLED` before any file is opened. A successful export
returns the lines the operator writes, each without its `\n`.

How the two exporters choose ids:

- The definition exporter keys on the cleaned name as it is. The placement
  exporter turns an empty cleaned name into `Unnamed`. When a base name is
  empty, the definition is written under `""` and the placement under
  `Unnamed`.
  - `CrossCheck.MappingsAgree` proves the ids agree when no base name is
    empty.
  - The ids can drift when a base name is empty. In the placement mapping
    the empty name merges with a mesh whose name is `Unnamed`, and later
    ids shift. `CrossCheck.EmptyNameShiftsIds` shows such a scene.
- A zero operator id falls back to the scene's `gtass_model_id`. Only the
  definition exporter falls back further, to 4542, when the scene has no
  such property (`Scene.IdeStartId`). The placement exporter reads the
  property with no default (`Scene.IplStartId`).

## Model

| member | source | states |
|---|---|---|
| Names.CleanName | GTASceneSync.py:21-23 | Exactly one `.` followed by one or more trailing digits is removed when present, and the name is returned unchanged otherwise. A final newline is kept and the suffix before it is removed, as `$` allows. |
| Names.StripNumericSuffix | GTASceneSync.py:23 | The substitution cuts the name at the unique position where `\.\d+` reaches the end, and changes nothing when no such position exists. |
| Names.CleanNameStripsOneSuffix | GTASceneSync.py:21-23 | For any prefix and non-empty run of digits, `prefix.digits` cleans to `prefix`. Only the last group goes, even when the prefix itself ends in `.<digits>`. |
| Names.CleanNameWithoutDot | GTASceneSync.py:21-23 | A name with no `.` is returned unchanged. |
| Names.CleanNameExamples | GTASceneSync.py:21-23 | `Wall.003` cleans to `Wall` and `Wall.1.2` cleans to `Wall.1`. |
| Names.CleanCollectionName | GTASceneSync.py:26-28 | The name changes exactly when it ends with `.dff` ignoring case, and then it loses exactly those four characters. The same holds before a final newline. |
| Names.CleanCollectionNameStripsOneSuffix | GTASceneSync.py:26-28 | Any prefix followed by a four-character suffix that folds to `.dff` cleans back to the prefix. |
| Names.CleanCollectionNameExamples | GTASceneSync.py:26-28 | `House.DFF` cleans to `House` and `a.dff.dff` cleans to `a.dff`: one suffix only. |
| Scene.BaseNameSpec | GTASceneSync.py:61-62 | For a name that does not end in a newline, the key is a prefix of the name it comes from. For such a name, an object in a collection is keyed by the collection's name, kept unless it ends with `.dff` in any case, when exactly those four characters go. An object in no collection whose name has no `.` is keyed by its whole name. |
| Scene.PlacementName | GTASceneSync.py:113-115 | The placement key is never empty, and it equals the base name whenever that is non-empty. |
| Scene.CollectionWins | GTASceneSync.py:61-62 | Two objects whose first collections have the same name get the same key in both exporters, whatever the objects' own names. |
| Scene.FlagIdentifierRoundTrip | GTASceneSync.py:258-289 | Each of the eighteen flags writes an identifier that reads back as that flag and no other. |
| Scene.Meshes | GTASceneSync.py:45 | The result holds every selected mesh and nothing else, and is no longer than the selection. |
| Scene.MeshesAppend | GTASceneSync.py:45 | Filtering a concatenated selection gives the concatenation of the filtered parts, so selection order is kept. |
| Scene.MeshesSingle | GTASceneSync.py:45 | A single object is kept exactly when it is a mesh. |
| Scene.IdeStartId | GTASceneSync.py:53 | The operator id is used when non-zero, otherwise the scene's id, otherwise 4542 when the scene has none. |
| Scene.IplStartId | GTASceneSync.py:110 | The operator id is used when non-zero, otherwise the scene's id. |
| Allocation.IndexOf | GTASceneSync.py:64 | The result is the first position holding the key, or none exactly when the key is absent. |
| Allocation.IdOf | GTASceneSync.py:136 | A key has an id exactly when it is in the dictionary. When no key appears twice, the id found is the id of the entry holding the key. |
| Allocation.Allocate | GTASceneSync.py:55-66 | The counter ends at the start plus the number of entries, there are at most as many entries as items, and the entry at position j has id start + j. |
| Allocation.AllocateKeys | GTASceneSync.py:64-66 | Every item's key is in the dictionary, no key appears twice, and the dictionary holds no key that is not an item's. |
| Allocation.AllocateFirstSeen | GTASceneSync.py:60-66 | Each entry carries the payload of the first item with its key, and entries follow the order in which keys are first seen. |
| Allocation.AllocateIds | GTASceneSync.py:109-119 | Every item's key has an id in [start, counter). Two items get the same id exactly when their keys are equal, so a repeated key keeps its first id. |
| Allocation.AllocateIdsInOrder | GTASceneSync.py:109-119 | The k-th distinct key maps to start + k: ids are consecutive, with no gaps. |
| Allocation.AllocateFirstItem | GTASceneSync.py:56-66 | The first item's key is the first entry and gets exactly the starting id. |
| Allocation.AllocateKeysOnly | GTASceneSync.py:60-66 | The keys of the dictionary depend only on the item keys, not on the recorded payloads. |
| Allocation.SameKeysSameIds | GTASceneSync.py:55-66 | Two allocations over the same keys from the same start give every key the same id, whatever their payloads. |
| Allocation.AllocateKeysStep | GTASceneSync.py:64-66 | One more item appends its key to the dictionary exactly when the key is new. |
| IdeExport.NormalizeIdePath | GTASceneSync.py:49-50 | The result ends with `.ide` ignoring case. It equals the path exactly when the path already did, and otherwise is the path plus `.ide`. |
| IdeExport.IdeLines | GTASceneSync.py:59-69 | The file has two more lines than there are records, opens with `objs`, closes with `end`, and has record j's line in between. |
| IdeExport.ExportIde | GTASceneSync.py:44-69 | The export fails exactly when no selected object is a mesh. On success the path is the normalised path and ends in `.ide`. The records are the definitions of the selected meshes from the starting id, with at least one record, the first with the starting id. The lines frame the records. |
| IdeExport.ExportIdeRecords | GTASceneSync.py:44-69 | A successful export numbers its records from the starting id with no gaps, writes no name twice, and names exactly the base names of the selected meshes. |
| IdeExport.DefinitionTableSpec | GTASceneSync.py:55-67 | The dictionary holds the base name of every mesh, with the first mesh's name under the starting id, and no other name. Every id found lies in [start, start + entries). Two meshes find the same id exactly when their base names are equal. |
| IdeExport.DefinitionIds | GTASceneSync.py:55-66 | Record j has id start + j, and no two records share a name. |
| IdeExport.DefinitionNames | GTASceneSync.py:60-67 | A name has a record exactly when it is the base name of some mesh. |
| IdeExport.DefinitionsFirstSeen | GTASceneSync.py:60-67 | Each record's texture, distance and flag are those of the first mesh with its name. Records are ordered by the position where their names first occur. |
| IdeExport.DefinitionLineFields | GTASceneSync.py:68 | A definition line is five comma-separated fields in the order id, name, texture, distance and flag identifier, each after the first behind one blank, provided the name and texture contain no comma. |
| IdeExport.DefinitionLineRoundTrip | GTASceneSync.py:68 | A definition line splits at its commas and parses back to the record it was written from, provided the name and texture contain no comma. |
| IplExport.IplLines | GTASceneSync.py:121-140 | The file has three more lines than there are records, opens with the comment and `inst`, closes with `end`, and has record i's line in between. |
| IplExport.MappingSpec | GTASceneSync.py:109-119 | The mapping gives every mesh's placement name an id in [start, start + entries), gives the first mesh's name the starting id, and gives no id to any other name. Two meshes get the same id exactly when their placement names are equal. |
| IplExport.PlacementFacts | GTASceneSync.py:133-139 | A record carries the object's placement name, zone 0, its location, the emitted rotation and LOD -1. Its id is the one the mapping holds for the name, or -1 when the mapping holds none. |
| IplExport.EmittedRotationInverse | GTASceneSync.py:129-132 | Converting the written rotation back gives the world rotation, composed with the offset when the option is on. Without the offset the written rotation has the world rotation's norm. |
| IplExport.Placements | GTASceneSync.py:126-139 | There is one record per mesh, in mesh order, with no deduplication. |
| IplExport.ExportIpl | GTASceneSync.py:142-151 | The export fails exactly when no selected object is a mesh. On success the records are the placements of the selected meshes under the mapping built from the starting id: as many as there are meshes, the first with the starting id. The lines frame the records. |
| IplExport.PlacementsSpec | GTASceneSync.py:121-139 | Record i holds mesh i's placement name, location and converted rotation, zone 0 and LOD -1. Its id is the one the mapping holds for the record's name, so the lookup never falls back to -1. The id lies in [start, counter), and two records share an id exactly when they share a name. |
| IplExport.ExportIplRecords | GTASceneSync.py:126-148 | In a successful export, record i places the i-th selected mesh. It has that mesh's placement name, location and converted rotation, zone 0 and LOD -1. Its id is the one the mapping built from the starting id holds for the record's name, so the lookup never falls back to -1. The id lies between the starting id and the starting id plus the number of meshes. Two records share an id exactly when they share a name. |
| IplExport.EmittedRotationComposes | GTASceneSync.py:129-132 | With the offset on, the written rotation equals the converted offset times the rotation written without the offset. |
| IplExport.PlacementLineFields | GTASceneSync.py:137-139 | A placement line splits back into exactly its eleven fields, and the first parses back to the id, provided the name and the rendered floats contain no comma. |
| Quaternion.ToGameIsConjugation | GTASceneSync.py:132 | Negating x and z is conjugation by the unit quaternion j, the change of frame by a half turn about the y axis. |
| Quaternion.ToGameInvolution | GTASceneSync.py:132 | Negating x and z twice gives back the original quaternion. |
| Quaternion.ToGameKeepsNorm | GTASceneSync.py:132 | The conversion keeps the squared norm, so unit rotations stay unit rotations. |
| Quaternion.ToGameOfProduct | GTASceneSync.py:131-132 | The conversion of a product is the product of the conversions. |
| Text.IntRoundTrip | GTASceneSync.py:68 | Every integer's decimal text parses back to that integer. |
| Text.SplitJoin | GTASceneSync.py:68 | Comma-free fields joined by commas split back into the same fields. |
| CrossCheck.MappingsAgree | GTASceneSync.py:55-66 | When no base name is empty, each mesh gets the same id from the definition table and from the placement mapping. |
| CrossCheck.PlacementIdsMatchDefinitions | GTASceneSync.py:109-139 | When no base name is empty, every placement record carries the id of the definition record with its name. |
| CrossCheck.ExportsAgree | GTASceneSync.py:44-69 | Over one selection and one starting id, both exports cancel or neither does. When both succeed and no base name is empty, every placement's id is the id of its name's definition. |
| CrossCheck.EmptyNameShiftsIds | GTASceneSync.py:62 | For the meshes `.1`, `Unnamed` and `Rock` from id 100, `Rock` is defined as 102 but placed as 101, which is the id defined for `Unnamed`. |
| CrossCheck.TreeExample | GTASceneSync.py:59-69 | Two parts of the collection `Tree1.dff` from id 100 give the definition lines `objs`, `100, Tree1, generic, 299, 0`, `end`, and two placements with id 100. |

## Left out

- File opening and writing, the `try`/`except` around it and `self.report`. These are host I/O. An exception while writing, which the operator reports as `CANCELLED`, is not modelled.
- `validate_filepath`, the placement exporter's path rule. It depends on how `pathlib` treats empty stems and leading dots, which is not visible here.
- `matrix_world.to_translation()` and `to_quaternion()`. The object's location and rotation are inputs of the record.
- The Euler-to-quaternion conversion of the default rotation. The offset is an input quaternion, `None` when the option is off.
- IplExport.EmittedRotation: the product `off @ base` is the exact Hamilton product over reals, not `mathutils`' floating-point one.
- IplExport.PlacementLine: `{v:.6f}` is the parameter `fmt`. The model does not fix the six-digit rendering.
- IplExport.PlacementLine: reals have no signed zero. Python's `-base.x` on a zero x gives `-0.0`, written `-0.000000`, while the model writes `fmt(0.0)`; the same holds for z.
- Names.CleanName: `\d` is taken to be the ASCII digits. Python also accepts other Unicode decimal digits.
- Names.CleanCollectionName: IGNORECASE is ASCII case folding. Python's IGNORECASE folds no non-ASCII letter onto `d` or `f`.
- IdeExport.NormalizeIdePath: `str.lower()` is ASCII case folding. Python's `str.lower()` also maps U+0130 to `i` followed by U+0307. That cannot complete a `.ide` ending, because the combining dot comes after the `i`.
- Allocation.Allocate: the starting ids are unbounded integers in the model, while Blender stores the `IntProperty` values in 32 bits. The counter `cur` is a Python int, unbounded in both.
- `invoke`, `draw`, the panel, the property-group declarations and `register`/`unregister`. These are Blender UI and registration. The property defaults 299, `generic` and `0` are the constant `Scene.DefaultProps`, and the 0..1200 range is the type `Scene.RenderDistance`.
- The 4542 defaults of the operators' `model_id` and of the scene's `gtass_model_id` (GTASceneSync.py:39, 91, 388) are not modelled. `modelId` and `sceneId` are free parameters, and 4542 appears only as the fallback in `Scene.IdeStartId` when the scene has no `gtass_model_id`.
- The utility operators: batch rename, reset position, remove materials, convert to collision and batch TXD. They write host object state directly.
