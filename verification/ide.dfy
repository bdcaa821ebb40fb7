/** The definition (IDE) exporter, `ExportAsIDE.execute`
    (GTASceneSync.py:44-75): one record per distinct base name, in the
    order the names are first seen, carrying the properties of the first
    object with that name. */
module IdeExport {
  import opened Wrappers
  import opened Text
  import opened Scene
  import opened Allocation

  datatype DefinitionRecord = DefinitionRecord(
    id: int, name: string, texture: string, distance: RenderDistance, flag: IdeFlag)

  /** What a successful export produces: the normalised file path, the
      records, and the lines written to the file (each without its `\n`). */
  datatype IdeFile = IdeFile(path: string, records: seq<DefinitionRecord>, lines: seq<string>)

  /** `.ide` is appended unless the path already ends with it, in any case
      (GTASceneSync.py:49-50). */
  function NormalizeIdePath(path: string): (r: string)
    ensures EndsWithIgnoreCase(r, ".ide")
    ensures r == path <==> EndsWithIgnoreCase(path, ".ide")
    ensures r != path ==> r == path + ".ide"
  {
    if EndsWithIgnoreCase(path, ".ide") then path
    else
      assert Lower(".ide") == ".ide";
      EndsWithIgnoreCaseAppend(path, ".ide");
      path + ".ide"
  }

  /** The base name of every mesh, paired with its IDE properties. */
  function DefinitionItems(meshes: seq<SceneObject>): (items: seq<(string, IdeProps)>)
    ensures |items| == |meshes|
    ensures forall i :: 0 <= i < |meshes| ==> items[i] == (BaseName(meshes[i]), meshes[i].props)
  {
    seq(|meshes|, i requires 0 <= i < |meshes| => (BaseName(meshes[i]), meshes[i].props))
  }

  function BaseNames(meshes: seq<SceneObject>): (names: seq<string>)
    ensures |names| == |meshes|
    ensures forall i :: 0 <= i < |meshes| ==> names[i] == BaseName(meshes[i])
  {
    seq(|meshes|, i requires 0 <= i < |meshes| => BaseName(meshes[i]))
  }

  /** The `unique` dictionary after the loop of GTASceneSync.py:60-66. */
  function DefinitionTable(meshes: seq<SceneObject>, start: int): Table<IdeProps>
  {
    Allocate(DefinitionItems(meshes), start)
  }

  /** The `unique` dictionary holds the base name of every mesh, the
      first mesh's under the starting id, and no other name; two meshes
      find the same id exactly when their base names are equal. */
  lemma DefinitionTableSpec(meshes: seq<SceneObject>, start: int)
    ensures var t := DefinitionTable(meshes, start);
      forall i :: 0 <= i < |meshes| ==>
        IdOf(t, BaseName(meshes[i])).Some? &&
        start <= IdOf(t, BaseName(meshes[i])).value < start + |t.entries|
    ensures var t := DefinitionTable(meshes, start);
      forall i, j :: 0 <= i < |meshes| && 0 <= j < |meshes| ==>
        (IdOf(t, BaseName(meshes[i])) == IdOf(t, BaseName(meshes[j])) <==>
         BaseName(meshes[i]) == BaseName(meshes[j]))
    ensures var t := DefinitionTable(meshes, start);
      forall n :: IdOf(t, n).Some? ==> n in BaseNames(meshes)
    ensures |meshes| > 0 ==> IdOf(DefinitionTable(meshes, start), BaseName(meshes[0])) == Some(start)
  {
    var items := DefinitionItems(meshes);
    var t := DefinitionTable(meshes, start);
    AllocateIds(items, start);
    AllocateKeys(items, start);
    if |meshes| > 0 {
      AllocateFirstItem(items, start);
    }
    assert KeysOf(items) == BaseNames(meshes);
    forall n | IdOf(t, n).Some?
      ensures n in BaseNames(meshes)
    {
      var j :| 0 <= j < |t.entries| && EntryKeys(t.entries)[j] == n;
    }
  }

  function ToRecord(e: Entry<IdeProps>): DefinitionRecord
  {
    DefinitionRecord(e.id, e.key, e.payload.texture, e.payload.distance, e.payload.flag)
  }

  /** `unique.items()` as records, in insertion order. */
  function Definitions(meshes: seq<SceneObject>, start: int): (rs: seq<DefinitionRecord>)
    ensures |rs| == |DefinitionTable(meshes, start).entries|
    ensures forall j :: 0 <= j < |rs| ==> rs[j] == ToRecord(DefinitionTable(meshes, start).entries[j])
  {
    var t := DefinitionTable(meshes, start);
    seq(|t.entries|, j requires 0 <= j < |t.entries| => ToRecord(t.entries[j]))
  }

  /** `f"{mid}, {name}, {txd}, {dist}, {flag}"` as the comma-separated
      fields, each after the first with its leading blank. */
  function DefinitionFields(r: DefinitionRecord): seq<string>
  {
    [IntToString(r.id), " " + r.name, " " + r.texture, " " + IntToString(r.distance),
     " " + r.flag.Identifier()]
  }

  function DefinitionLine(r: DefinitionRecord): string
  {
    JoinComma(DefinitionFields(r))
  }

  /** The file: `objs`, one line per record, `end`. */
  function IdeLines(records: seq<DefinitionRecord>): (lines: seq<string>)
    ensures |lines| == |records| + 2
    ensures lines[0] == "objs" && lines[|lines| - 1] == "end"
    ensures forall j :: 0 <= j < |records| ==> lines[j + 1] == DefinitionLine(records[j])
  {
    Framed(["objs"], records, DefinitionLine, ["end"])
  }

  /** `ExportAsIDE.execute` up to the file write: keep the meshes, cancel
      when there are none, normalise the path, choose the starting id and
      build the lines. */
  function ExportIde(selected: seq<SceneObject>, path: string, modelId: int, sceneId: Option<nat>)
    : (r: Result<IdeFile, ExportError>)
    ensures r.Failure? <==> forall o :: o in selected ==> !o.isMesh
    ensures r.Success? ==>
      && EndsWithIgnoreCase(r.value.path, ".ide")
      && r.value.path == NormalizeIdePath(path)
      && |r.value.records| > 0
      && r.value.records[0].id == IdeStartId(modelId, sceneId)
      && r.value.records == Definitions(Meshes(selected), IdeStartId(modelId, sceneId))
      && r.value.lines == IdeLines(r.value.records)
  {
    var meshes := Meshes(selected);
    if |meshes| == 0 then
      Failure(NoMeshSelected)
    else
      assert meshes[0] in meshes;
      var start := IdeStartId(modelId, sceneId);
      var records := Definitions(meshes, start);
      AllocateFirstItem(DefinitionItems(meshes), start);
      Success(IdeFile(NormalizeIdePath(path), records, IdeLines(records)))
  }

  /** The ids of a definition export are `start, start + 1, …`, and no
      name has two records. */
  lemma DefinitionIds(meshes: seq<SceneObject>, start: int)
    ensures var rs := Definitions(meshes, start);
      forall j :: 0 <= j < |rs| ==> rs[j].id == start + j
    ensures var rs := Definitions(meshes, start);
      forall i, j :: 0 <= i < j < |rs| ==> rs[i].name != rs[j].name
  {
    AllocateKeys(DefinitionItems(meshes), start);
  }

  function RecordNames(records: seq<DefinitionRecord>): (names: seq<string>)
    ensures |names| == |records|
    ensures forall j :: 0 <= j < |records| ==> names[j] == records[j].name
  {
    seq(|records|, j requires 0 <= j < |records| => records[j].name)
  }

  /** The records name exactly the base names of the meshes: every mesh's
      base name has a record, and every record is named after a mesh. */
  lemma DefinitionNames(meshes: seq<SceneObject>, start: int)
    ensures forall n :: n in RecordNames(Definitions(meshes, start)) <==> n in BaseNames(meshes)
  {
    var items := DefinitionItems(meshes);
    var t := DefinitionTable(meshes, start);
    AllocateKeys(items, start);
    assert RecordNames(Definitions(meshes, start)) == EntryKeys(t.entries);
    assert KeysOf(items) == BaseNames(meshes);
    forall n | n in EntryKeys(t.entries)
      ensures n in KeysOf(items)
    {
      var j :| 0 <= j < |t.entries| && EntryKeys(t.entries)[j] == n;
    }
    forall n | n in KeysOf(items)
      ensures n in EntryKeys(t.entries)
    {
      var i :| 0 <= i < |items| && KeysOf(items)[i] == n;
    }
  }

  /** Each record's texture, distance and flag are those of the first mesh
      with its name, and the records follow the order in which the names
      are first seen. */
  lemma DefinitionsFirstSeen(meshes: seq<SceneObject>, start: int)
    ensures var rs := Definitions(meshes, start);
      forall j :: 0 <= j < |rs| ==>
        var f := IndexOf(BaseNames(meshes), rs[j].name);
        && f.Some?
        && meshes[f.value].props == IdeProps(rs[j].texture, rs[j].distance, rs[j].flag)
    ensures var rs := Definitions(meshes, start);
      forall i, j :: 0 <= i < j < |rs| ==>
        IndexOf(BaseNames(meshes), rs[i].name).Some? &&
        IndexOf(BaseNames(meshes), rs[j].name).Some? &&
        IndexOf(BaseNames(meshes), rs[i].name).value < IndexOf(BaseNames(meshes), rs[j].name).value
  {
    var items := DefinitionItems(meshes);
    var t := DefinitionTable(meshes, start);
    assert KeysOf(items) == BaseNames(meshes);
    AllocateFirstSeen(items, start);
    assert FirstPayloads(items, t.entries);
    assert FirstSeenOrder(items, t.entries);
  }

  /** What a successful definition export writes: ids `start, start + 1,
      …` with no gaps, no name twice, and exactly the base names of the
      selected meshes. */
  lemma ExportIdeRecords(selected: seq<SceneObject>, path: string, modelId: int, sceneId: Option<nat>)
    ensures var r := ExportIde(selected, path, modelId, sceneId);
      r.Success? ==>
        forall j :: 0 <= j < |r.value.records| ==> r.value.records[j].id == IdeStartId(modelId, sceneId) + j
    ensures var r := ExportIde(selected, path, modelId, sceneId);
      r.Success? ==>
        forall i, j :: 0 <= i < j < |r.value.records| ==> r.value.records[i].name != r.value.records[j].name
    ensures var r := ExportIde(selected, path, modelId, sceneId);
      r.Success? ==>
        forall n :: n in RecordNames(r.value.records) <==> n in BaseNames(Meshes(selected))
  {
    var r := ExportIde(selected, path, modelId, sceneId);
    if r.Success? {
      var ms := Meshes(selected);
      var start := IdeStartId(modelId, sceneId);
      assert r.value.records == Definitions(ms, start);
      DefinitionIds(ms, start);
      DefinitionNames(ms, start);
    }
  }

  /** Reads a definition line back into a record. */
  function ParseDefinitionLine(line: string): Option<DefinitionRecord>
  {
    var f := SplitComma(line);
    if |f| != 5 then None
    else if exists k :: 1 <= k < 5 && (|f[k]| == 0 || f[k][0] != ' ') then None
    else
      match (ParseInt(f[0]), ParseInt(f[3][1..]), FlagOfIdentifier(f[4][1..]))
      case (Some(id), Some(d), Some(flag)) =>
        if 0 <= d <= 1200 then Some(DefinitionRecord(id, f[1][1..], f[2][1..], d, flag)) else None
      case _ => None
  }

  /** A definition line is five comma-separated fields in the order id,
      name, texture, draw distance, flag, each after the first behind one
      blank, as long as the name and the texture hold no comma. */
  lemma DefinitionLineFields(r: DefinitionRecord)
    requires NoComma(r.name) && NoComma(r.texture)
    ensures SplitComma(DefinitionLine(r)) ==
      [IntToString(r.id), " " + r.name, " " + r.texture, " " + IntToString(r.distance),
       " " + r.flag.Identifier()]
  {
    var fields := DefinitionFields(r);
    IntStringHasNoComma(r.id);
    IntStringHasNoComma(r.distance);
    assert NoComma(r.flag.Identifier());
    assert forall k :: 0 <= k < 5 ==> NoComma(fields[k]);
    SplitJoin(fields);
  }

  /** A definition line reads back as the record it was written from, as
      long as the name and the texture hold no comma. */
  lemma DefinitionLineRoundTrip(r: DefinitionRecord)
    requires NoComma(r.name) && NoComma(r.texture)
    ensures ParseDefinitionLine(DefinitionLine(r)) == Some(r)
  {
    var fields := DefinitionFields(r);
    DefinitionLineFields(r);
    IntRoundTrip(r.id);
    IntRoundTrip(r.distance);
    FlagIdentifierRoundTrip(r.flag);
    assert fields[1][1..] == r.name;
    assert fields[2][1..] == r.texture;
    assert fields[3][1..] == IntToString(r.distance);
    assert fields[4][1..] == r.flag.Identifier();
  }
}
