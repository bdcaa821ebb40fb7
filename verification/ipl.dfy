/** The placement (IPL) exporter, `ExportAsIPL` (GTASceneSync.py:109-156):
    one record per selected mesh, in selection order, with the id its
    placement name was given by the first-seen allocation. */
module IplExport {
  import opened Wrappers
  import opened Text
  import opened Quaternion
  import opened Scene
  import opened Allocation

  datatype PlacementRecord = PlacementRecord(
    id: int, name: string, interior: int, position: Vec3, rotation: Quat, lod: int)

  /** What a successful export produces: the records and the lines written
      to the file (each without its `\n`). */
  datatype IplFile = IplFile(records: seq<PlacementRecord>, lines: seq<string>)

  const Interior := 0
  const NoLod := -1
  const Comment := "# Exported with GTASceneSync"

  /** The placement name of every mesh; the mapping stores no payload. */
  function PlacementItems(meshes: seq<SceneObject>): (items: seq<(string, ())>)
    ensures |items| == |meshes|
    ensures forall i :: 0 <= i < |meshes| ==> items[i] == (PlacementName(meshes[i]), ())
  {
    seq(|meshes|, i requires 0 <= i < |meshes| => (PlacementName(meshes[i]), ()))
  }

  /** `generate_mapping` (GTASceneSync.py:109-119). */
  function Mapping(meshes: seq<SceneObject>, start: int): Table<()>
  {
    Allocate(PlacementItems(meshes), start)
  }

  /** `generate_mapping` gives the placement name of every mesh an id,
      the starting id to the first mesh's name, and no id to any other
      name; two meshes get the same id exactly when their placement names
      are equal. */
  lemma MappingSpec(meshes: seq<SceneObject>, start: int)
    ensures var m := Mapping(meshes, start);
      forall i :: 0 <= i < |meshes| ==>
        IdOf(m, PlacementName(meshes[i])).Some? &&
        start <= IdOf(m, PlacementName(meshes[i])).value < start + |m.entries|
    ensures var m := Mapping(meshes, start);
      forall i, j :: 0 <= i < |meshes| && 0 <= j < |meshes| ==>
        (IdOf(m, PlacementName(meshes[i])) == IdOf(m, PlacementName(meshes[j])) <==>
         PlacementName(meshes[i]) == PlacementName(meshes[j]))
    ensures var m := Mapping(meshes, start);
      forall n :: IdOf(m, n).Some? ==> n in KeysOf(PlacementItems(meshes))
    ensures |meshes| > 0 ==> IdOf(Mapping(meshes, start), PlacementName(meshes[0])) == Some(start)
  {
    var items := PlacementItems(meshes);
    var m := Mapping(meshes, start);
    AllocateIds(items, start);
    AllocateKeys(items, start);
    if |meshes| > 0 {
      AllocateFirstItem(items, start);
    }
    forall n | IdOf(m, n).Some?
      ensures n in KeysOf(items)
    {
      var j :| 0 <= j < |m.entries| && EntryKeys(m.entries)[j] == n;
    }
  }

  /** The rotation written for an object: its world rotation, first
      composed with the default-rotation offset when that option is on
      (`off @ base`), then converted by negating x and z. */
  function EmittedRotation(o: SceneObject, offset: Option<Quat>): Quat
  {
    var base := match offset
      case Some(off) => Mul(off, o.rotation)
      case None => o.rotation;
    ToGame(base)
  }

  /** One record of `write_ipl`; an unmapped name would get id -1
      (`mapping.get(nm, -1)`). */
  function Placement(o: SceneObject, mapping: Table<()>, offset: Option<Quat>): PlacementRecord
  {
    var nm := PlacementName(o);
    PlacementRecord(IdOf(mapping, nm).GetOr(-1), nm, Interior, o.location,
                    EmittedRotation(o, offset), NoLod)
  }

  /** Converting the emitted rotation back gives the world rotation, after
      the offset when there is one; without an offset the norm is kept. */
  lemma EmittedRotationInverse(o: SceneObject, offset: Option<Quat>)
    ensures offset.None? ==> ToGame(EmittedRotation(o, offset)) == o.rotation
    ensures offset.Some? ==> ToGame(EmittedRotation(o, offset)) == Mul(offset.value, o.rotation)
    ensures offset.None? ==> NormSq(EmittedRotation(o, offset)) == NormSq(o.rotation)
  {
    var base := match offset
      case Some(off) => Mul(off, o.rotation)
      case None => o.rotation;
    ToGameInvolution(base);
    ToGameKeepsNorm(base);
  }

  /** A placement record carries the object's placement name, zone 0, its
      location, the emitted rotation and LOD -1. Its id is the one the
      mapping holds for the name, or -1 when the mapping holds none. */
  lemma PlacementFacts(o: SceneObject, mapping: Table<()>, offset: Option<Quat>)
    ensures var r := Placement(o, mapping, offset);
      && r.name == PlacementName(o) && r.interior == 0 && r.lod == -1
      && r.position == o.location && r.rotation == EmittedRotation(o, offset)
    ensures var r := Placement(o, mapping, offset);
      r.name in EntryKeys(mapping.entries) ==> IdOf(mapping, r.name) == Some(r.id)
    ensures var r := Placement(o, mapping, offset);
      r.name !in EntryKeys(mapping.entries) ==> r.id == -1
  {
  }

  function Placements(meshes: seq<SceneObject>, mapping: Table<()>, offset: Option<Quat>)
    : (rs: seq<PlacementRecord>)
    ensures |rs| == |meshes|
    ensures forall i :: 0 <= i < |meshes| ==> rs[i] == Placement(meshes[i], mapping, offset)
  {
    seq(|meshes|, i requires 0 <= i < |meshes| => Placement(meshes[i], mapping, offset))
  }

  /** The fields of one placement line; `fmt` renders a float the way
      `f"{v:.6f}"` does. */
  function PlacementFields(r: PlacementRecord, fmt: real -> string): seq<string>
  {
    [IntToString(r.id), " " + r.name, " " + IntToString(r.interior),
     " " + fmt(r.position.x), " " + fmt(r.position.y), " " + fmt(r.position.z),
     " " + fmt(r.rotation.x), " " + fmt(r.rotation.y), " " + fmt(r.rotation.z),
     " " + fmt(r.rotation.w), " " + IntToString(r.lod)]
  }

  function PlacementLine(r: PlacementRecord, fmt: real -> string): string
  {
    JoinComma(PlacementFields(r, fmt))
  }

  /** The file: a comment, `inst`, one line per record, `end`. */
  function IplLines(records: seq<PlacementRecord>, fmt: real -> string): (lines: seq<string>)
    ensures |lines| == |records| + 3
    ensures lines[0] == Comment && lines[1] == "inst" && lines[|lines| - 1] == "end"
    ensures forall i :: 0 <= i < |records| ==> lines[i + 2] == PlacementLine(records[i], fmt)
  {
    Framed([Comment, "inst"], records, (r: PlacementRecord) => PlacementLine(r, fmt), ["end"])
  }

  /** `ExportAsIPL.execute` up to the file write: keep the meshes, cancel
      when there are none, choose the starting id, build the mapping and
      the lines. `offset` is the default-rotation quaternion when that
      option is on. */
  function ExportIpl(selected: seq<SceneObject>, modelId: int, sceneId: nat,
                     offset: Option<Quat>, fmt: real -> string)
    : (r: Result<IplFile, ExportError>)
    ensures r.Failure? <==> forall o :: o in selected ==> !o.isMesh
    ensures r.Success? ==>
      && |r.value.records| == |Meshes(selected)|
      && r.value.records[0].id == IplStartId(modelId, sceneId)
      && r.value.records == Placements(Meshes(selected), Mapping(Meshes(selected), IplStartId(modelId, sceneId)), offset)
      && r.value.lines == IplLines(r.value.records, fmt)
  {
    var meshes := Meshes(selected);
    if |meshes| == 0 then
      Failure(NoMeshSelected)
    else
      assert meshes[0] in meshes;
      var start := IplStartId(modelId, sceneId);
      var mapping := Mapping(meshes, start);
      AllocateFirstItem(PlacementItems(meshes), start);
      var records := Placements(meshes, mapping, offset);
      Success(IplFile(records, IplLines(records, fmt)))
  }

  /** Each record belongs to the mesh at the same position: its name,
      location and converted rotation, zone 0 and LOD -1. Its id is the one
      the mapping holds for the record's name, so the lookup never falls
      back to -1; every id lies between `start` and the number of distinct
      names past it, and two records share an id exactly when they share a
      name. */
  lemma PlacementsSpec(meshes: seq<SceneObject>, start: int, offset: Option<Quat>)
    ensures var rs := Placements(meshes, Mapping(meshes, start), offset);
      forall i :: 0 <= i < |meshes| ==>
        && rs[i].name == PlacementName(meshes[i])
        && rs[i].interior == 0 && rs[i].lod == -1
        && rs[i].position == meshes[i].location
        && rs[i].rotation == EmittedRotation(meshes[i], offset)
    ensures var rs := Placements(meshes, Mapping(meshes, start), offset);
      forall i :: 0 <= i < |meshes| ==>
        start <= rs[i].id < start + |Mapping(meshes, start).entries|
    ensures var rs := Placements(meshes, Mapping(meshes, start), offset);
      forall i, j :: 0 <= i < |meshes| && 0 <= j < |meshes| ==>
        (rs[i].id == rs[j].id <==> rs[i].name == rs[j].name)
    ensures var rs := Placements(meshes, Mapping(meshes, start), offset);
      forall i :: 0 <= i < |meshes| ==> IdOf(Mapping(meshes, start), rs[i].name) == Some(rs[i].id)
  {
    var items := PlacementItems(meshes);
    AllocateIds(items, start);
  }

  /** What a successful placement export writes: record i places the i-th
      selected mesh, under its placement name, at its location, with its
      converted rotation, zone 0 and LOD -1. Its id is a real allocated id
      from the starting id on, and two records share an id exactly when
      they share a name. */
  lemma ExportIplRecords(selected: seq<SceneObject>, modelId: int, sceneId: nat,
                         offset: Option<Quat>, fmt: real -> string)
    ensures var r := ExportIpl(selected, modelId, sceneId, offset, fmt);
      var ms := Meshes(selected);
      r.Success? ==>
        forall i :: 0 <= i < |ms| ==>
          && r.value.records[i].name == PlacementName(ms[i])
          && r.value.records[i].interior == 0 && r.value.records[i].lod == -1
          && r.value.records[i].position == ms[i].location
          && r.value.records[i].rotation == EmittedRotation(ms[i], offset)
          && IplStartId(modelId, sceneId) <= r.value.records[i].id < IplStartId(modelId, sceneId) + |ms|
    ensures var r := ExportIpl(selected, modelId, sceneId, offset, fmt);
      r.Success? ==>
        forall i, j :: 0 <= i < |r.value.records| && 0 <= j < |r.value.records| ==>
          (r.value.records[i].id == r.value.records[j].id <==> r.value.records[i].name == r.value.records[j].name)
    ensures var r := ExportIpl(selected, modelId, sceneId, offset, fmt);
      var mapping := Mapping(Meshes(selected), IplStartId(modelId, sceneId));
      r.Success? ==>
        forall i :: 0 <= i < |r.value.records| ==> IdOf(mapping, r.value.records[i].name) == Some(r.value.records[i].id)
  {
    var r := ExportIpl(selected, modelId, sceneId, offset, fmt);
    if r.Success? {
      var ms := Meshes(selected);
      var start := IplStartId(modelId, sceneId);
      assert r.value.records == Placements(ms, Mapping(ms, start), offset);
      PlacementsSpec(ms, start, offset);
    }
  }

  /** The emitted rotation with the offset is the converted offset composed
      with the converted world rotation, so the offset may equally be
      applied after the conversion. */
  lemma EmittedRotationComposes(o: SceneObject, off: Quat)
    ensures EmittedRotation(o, Some(off)) == Mul(ToGame(off), EmittedRotation(o, None))
  {
    ToGameOfProduct(off, o.rotation);
  }

  /** A placement line splits back into its eleven fields, and its first
      field reads back as the record's id, as long as the name and the
      rendered floats hold no comma. */
  lemma PlacementLineFields(r: PlacementRecord, fmt: real -> string)
    requires NoComma(r.name)
    requires forall v :: NoComma(fmt(v))
    ensures |SplitComma(PlacementLine(r, fmt))| == 11
    ensures SplitComma(PlacementLine(r, fmt)) == PlacementFields(r, fmt)
    ensures ParseInt(SplitComma(PlacementLine(r, fmt))[0]) == Some(r.id)
  {
    var fields := PlacementFields(r, fmt);
    IntStringHasNoComma(r.id);
    IntStringHasNoComma(r.interior);
    IntStringHasNoComma(r.lod);
    forall k | 1 <= k < 11
      ensures NoComma(fields[k])
    {
      assert fields[k] == " " + fields[k][1..];
    }
    SplitJoin(fields);
    IntRoundTrip(r.id);
  }
}
