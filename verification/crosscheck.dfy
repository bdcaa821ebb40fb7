/** How the two exporters' ids relate. Both allocate over the same meshes
    in the same order from the same starting id, but the definition
    exporter keys on the base name (GTASceneSync.py:62) while the placement
    exporter replaces an empty base name with `Unnamed`
    (GTASceneSync.py:115, 135). The ids agree whenever no base name is
    empty; otherwise they can drift apart. */
module CrossCheck {
  import opened Wrappers
  import opened Text
  import opened Names
  import opened Quaternion
  import opened Scene
  import opened Allocation
  import opened IdeExport
  import opened IplExport

  /** The id of the definition record with the given name, if there is one. */
  function DefinitionIdOf(records: seq<DefinitionRecord>, name: string): Option<int>
  {
    match IndexOf(RecordNames(records), name)
    case Some(p) => Some(records[p].id)
    case None => None
  }

  /** With no empty base name, each mesh's definition id equals its
      placement id. */
  lemma MappingsAgree(meshes: seq<SceneObject>, start: int)
    requires forall i :: 0 <= i < |meshes| ==> BaseName(meshes[i]) != ""
    ensures forall i :: 0 <= i < |meshes| ==>
      IdOf(DefinitionTable(meshes, start), BaseName(meshes[i])) ==
      IdOf(Mapping(meshes, start), PlacementName(meshes[i]))
  {
    var di, pi := DefinitionItems(meshes), PlacementItems(meshes);
    assert KeysOf(di) == KeysOf(pi);
    forall i | 0 <= i < |meshes|
      ensures IdOf(DefinitionTable(meshes, start), BaseName(meshes[i])) ==
              IdOf(Mapping(meshes, start), PlacementName(meshes[i]))
    {
      SameKeysSameIds(di, pi, start, BaseName(meshes[i]));
    }
  }

  /** The definition record of a name carries the id the allocation gave it. */
  lemma DefinitionIdOfTable(meshes: seq<SceneObject>, start: int, name: string)
    ensures DefinitionIdOf(Definitions(meshes, start), name) == IdOf(DefinitionTable(meshes, start), name)
  {
    var t := DefinitionTable(meshes, start);
    assert RecordNames(Definitions(meshes, start)) == EntryKeys(t.entries);
  }

  /** With no empty base name, every placement record carries the id of
      the definition record with its name. */
  lemma PlacementIdsMatchDefinitions(meshes: seq<SceneObject>, start: int, offset: Option<Quat>)
    requires forall i :: 0 <= i < |meshes| ==> BaseName(meshes[i]) != ""
    ensures var defs, places := Definitions(meshes, start), Placements(meshes, Mapping(meshes, start), offset);
      forall i :: 0 <= i < |places| ==> DefinitionIdOf(defs, places[i].name) == Some(places[i].id)
  {
    var defs, places := Definitions(meshes, start), Placements(meshes, Mapping(meshes, start), offset);
    MappingsAgree(meshes, start);
    AllocateIds(PlacementItems(meshes), start);
    forall i | 0 <= i < |places|
      ensures DefinitionIdOf(defs, places[i].name) == Some(places[i].id)
    {
      assert PlacementItems(meshes)[i].0 == PlacementName(meshes[i]);
      DefinitionIdOfTable(meshes, start, BaseName(meshes[i]));
    }
  }

  /** Running both exports over one selection with the scene's starting
      id: both cancel or neither does, and when no base name is empty,
      every placement carries the id of the definition with its name. */
  lemma ExportsAgree(selected: seq<SceneObject>, path: string, modelId: int, sceneId: nat,
                     offset: Option<Quat>, fmt: real -> string)
    ensures ExportIde(selected, path, modelId, Some(sceneId)).Success? <==>
            ExportIpl(selected, modelId, sceneId, offset, fmt).Success?
    ensures var ide := ExportIde(selected, path, modelId, Some(sceneId));
      var ipl := ExportIpl(selected, modelId, sceneId, offset, fmt);
      ide.Success? && ipl.Success? &&
      (forall o :: o in Meshes(selected) ==> BaseName(o) != "") ==>
        forall i :: 0 <= i < |ipl.value.records| ==>
          DefinitionIdOf(ide.value.records, ipl.value.records[i].name) == Some(ipl.value.records[i].id)
  {
    var meshes := Meshes(selected);
    if |meshes| > 0 && (forall o :: o in meshes ==> BaseName(o) != "") {
      var start := IdeStartId(modelId, Some(sceneId));
      assert start == IplStartId(modelId, sceneId);
      assert forall i :: 0 <= i < |meshes| ==> meshes[i] in meshes;
      PlacementIdsMatchDefinitions(meshes, start, offset);
    }
  }

  function Mesh(name: string): SceneObject
  {
    SceneObject(name, [], true, DefaultProps, Vec3(0.0, 0.0, 0.0), Identity)
  }

  lemma ExampleBaseNames()
    ensures BaseName(Mesh(".1")) == ""
    ensures BaseName(Mesh("Unnamed")) == "Unnamed"
    ensures BaseName(Mesh("Rock")) == "Rock"
  {
    assert NumericSuffixAt(".1", 0) by { assert ".1"[1..] == "1"; }
    CleanNameWithoutDot("Unnamed");
    CleanNameWithoutDot("Rock");
  }

  function ExampleMeshes(): seq<SceneObject>
  {
    [Mesh(".1"), Mesh("Unnamed"), Mesh("Rock")]
  }

  lemma ExampleItems()
    ensures DefinitionItems(ExampleMeshes()) ==
      [("", DefaultProps), ("Unnamed", DefaultProps), ("Rock", DefaultProps)]
    ensures PlacementItems(ExampleMeshes()) == [("Unnamed", ()), ("Unnamed", ()), ("Rock", ())]
  {
    ExampleBaseNames();
  }

  lemma ExampleDefinitions()
    ensures DefinitionIdOf(Definitions(ExampleMeshes(), 100), "Rock") == Some(102)
    ensures DefinitionIdOf(Definitions(ExampleMeshes(), 100), "Unnamed") == Some(101)
  {
    var ms := ExampleMeshes();
    ExampleItems();
    KeysOfThree(("", DefaultProps), ("Unnamed", DefaultProps), ("Rock", DefaultProps), 100);
    var t := DefinitionTable(ms, 100);
    assert EntryKeys(t.entries) == ["", "Unnamed", "Rock"];
    assert IndexOf(EntryKeys(t.entries), "Rock") == Some(2);
    assert IndexOf(EntryKeys(t.entries), "Unnamed") == Some(1);
    DefinitionIdOfTable(ms, 100, "Rock");
    DefinitionIdOfTable(ms, 100, "Unnamed");
  }

  lemma ExamplePlacements()
    ensures Placements(ExampleMeshes(), Mapping(ExampleMeshes(), 100), None)[2].name == "Rock"
    ensures Placements(ExampleMeshes(), Mapping(ExampleMeshes(), 100), None)[2].id == 101
  {
    var ms := ExampleMeshes();
    ExampleItems();
    ExampleBaseNames();
    KeysOfThree(("Unnamed", ()), ("Unnamed", ()), ("Rock", ()), 100);
    var t := Mapping(ms, 100);
    assert EntryKeys(t.entries) == ["Unnamed", "Rock"];
    assert IndexOf(EntryKeys(t.entries), "Rock") == Some(1);
  }

  /** An object named `.1` has an empty base name. Next to an object named
      `Unnamed` and one named `Rock`, the definition exporter gives the
      three names ids 100, 101 and 102, while the placement exporter merges
      the first two under `Unnamed` and places `Rock` with id 101, the id
      whose definition is `Unnamed`. */
  lemma EmptyNameShiftsIds()
    ensures var ms := ExampleMeshes();
      && DefinitionIdOf(Definitions(ms, 100), "Rock") == Some(102)
      && Placements(ms, Mapping(ms, 100), None)[2].name == "Rock"
      && Placements(ms, Mapping(ms, 100), None)[2].id == 101
      && DefinitionIdOf(Definitions(ms, 100), "Unnamed") == Some(101)
  {
    ExampleBaseNames();
    ExampleDefinitions();
    ExamplePlacements();
  }

  function TreePart(location: Vec3): SceneObject
  {
    SceneObject("Tree1.003", ["Tree1.dff"], true, DefaultProps, location, Identity)
  }

  lemma TreeBaseName(location: Vec3)
    ensures BaseName(TreePart(location)) == "Tree1"
  {
    var suffix := ".dff";
    assert Lower(suffix) == suffix by {
      assert forall i :: 0 <= i < 4 ==> LowerChar(suffix[i]) == suffix[i];
    }
    assert "Tree1" + suffix == "Tree1.dff";
    CleanCollectionNameStripsOneSuffix("Tree1", suffix);
  }

  lemma IntStringExamples()
    ensures IntToString(100) == "100" && IntToString(299) == "299"
  {
    assert NatToString(10) == "10";
    assert NatToString(29) == "29";
  }

  lemma JoinFive(a: string, b: string, c: string, d: string, e: string)
    ensures JoinComma([a, b, c, d, e]) == a + "," + b + "," + c + "," + d + "," + e
  {
    var fs := [a, b, c, d, e];
    assert fs[4..] == [e];
    assert fs[3..] == [d, e];
    assert JoinComma(fs[3..]) == d + "," + e;
    assert fs[2..] == [c, d, e];
    assert JoinComma(fs[2..]) == c + "," + (d + "," + e);
    assert fs[1..] == [b, c, d, e];
    assert JoinComma(fs[1..]) == b + "," + (c + "," + (d + "," + e));
  }

  lemma TreeDefinitionFields()
    ensures DefinitionFields(DefinitionRecord(100, "Tree1", "generic", 299, SaDefault))
      == ["100", " Tree1", " generic", " 299", " 0"]
  {
    IntStringExamples();
    assert SaDefault.Identifier() == "0";
    assert " " + "Tree1" == " Tree1" && " " + "generic" == " generic";
    assert " " + "299" == " 299" && " " + "0" == " 0";
  }

  lemma TreeDefinitionLine()
    ensures DefinitionLine(DefinitionRecord(100, "Tree1", "generic", 299, SaDefault))
      == "100, Tree1, generic, 299, 0"
  {
    TreeDefinitionFields();
    JoinFive("100", " Tree1", " generic", " 299", " 0");
  }

  lemma TreeDefinitions(p: Vec3, q: Vec3)
    ensures Definitions([TreePart(p), TreePart(q)], 100)
      == [DefinitionRecord(100, "Tree1", "generic", 299, SaDefault)]
  {
    var ms := [TreePart(p), TreePart(q)];
    TreeBaseName(p);
    TreeBaseName(q);
    var di := DefinitionItems(ms);
    assert di == [("Tree1", DefaultProps), ("Tree1", DefaultProps)];
    KeysOfTwo(di[0], di[1], 100);
    var t := DefinitionTable(ms, 100);
    assert EntryKeys(t.entries) == ["Tree1"];
    AllocateFirstSeen(di, 100);
    assert t.entries[0].payload == DefaultProps;
  }

  lemma TreePlacements(p: Vec3, q: Vec3)
    ensures var ms := [TreePart(p), TreePart(q)];
      && |Placements(ms, Mapping(ms, 100), None)| == 2
      && Placements(ms, Mapping(ms, 100), None)[0].id == 100
      && Placements(ms, Mapping(ms, 100), None)[1].id == 100
  {
    var ms := [TreePart(p), TreePart(q)];
    TreeBaseName(p);
    TreeBaseName(q);
    var pi := PlacementItems(ms);
    assert pi == [("Tree1", ()), ("Tree1", ())];
    AllocateFirstItem(pi, 100);
  }

  lemma TreeDefinitionFile(p: Vec3, q: Vec3)
    ensures IdeLines(Definitions([TreePart(p), TreePart(q)], 100)) == ["objs", "100, Tree1, generic, 299, 0", "end"]
  {
    TreeDefinitions(p, q);
    TreeDefinitionLine();
    var lines := IdeLines([DefinitionRecord(100, "Tree1", "generic", 299, SaDefault)]);
    assert lines[..1] == ["objs"] && lines[2..] == ["end"];
    assert lines == ["objs", "100, Tree1, generic, 299, 0", "end"];
  }

  /** Two meshes of the collection `Tree1.dff` starting at id 100: one
      definition, `100, Tree1, generic, 299, 0`, and two placements, both
      with id 100. */
  lemma TreeExample(p: Vec3, q: Vec3)
    ensures var ms := [TreePart(p), TreePart(q)];
      && IdeLines(Definitions(ms, 100)) == ["objs", "100, Tree1, generic, 299, 0", "end"]
      && |Placements(ms, Mapping(ms, 100), None)| == 2
      && Placements(ms, Mapping(ms, 100), None)[0].id == 100
      && Placements(ms, Mapping(ms, 100), None)[1].id == 100
  {
    TreeDefinitionFile(p, q);
    TreePlacements(p, q);
  }
}
