/** The scene objects the exporters read, and the name and id choices they
    share: the canonical key of an object, the mesh filter and the starting
    model id. */
module Scene {
  import opened Wrappers
  import opened Text
  import opened Names
  import opened Quaternion

  /** The `IDE_FLAGS` enumeration (GTASceneSync.py:258-286). */
  datatype IdeFlag =
    | DrawLast | Additive | NoZWrite | NoShadows | NoBackfaceCulling
    | Door
    | CodeGlass | ArtistGlass | GarageDoor | Tree | PalmTree | Tag | NoCover | WetOnly
    | WetRoads | Damageable | NoFlyerCollide
    | SaDefault
  {
    /** The enumeration identifier, which is what `f"{flag}"` writes. */
    function Identifier(): string
    {
      match this
      case DrawLast => "4"
      case Additive => "8"
      case NoZWrite => "64"
      case NoShadows => "128"
      case NoBackfaceCulling => "2097152"
      case Door => "32"
      case CodeGlass => "512"
      case ArtistGlass => "1024"
      case GarageDoor => "2048"
      case Tree => "8192"
      case PalmTree => "16384"
      case Tag => "1048576"
      case NoCover => "4194304"
      case WetOnly => "8388608"
      case WetRoads => "1"
      case Damageable => "4096"
      case NoFlyerCollide => "32768"
      case SaDefault => "0"
    }
  }

  /** Reads an identifier back into the enumeration, as the host's enum
      property does when it stores the identifier string. */
  function FlagOfIdentifier(s: string): Option<IdeFlag>
  {
    match s
    case "4" => Some(DrawLast)
    case "8" => Some(Additive)
    case "64" => Some(NoZWrite)
    case "128" => Some(NoShadows)
    case "2097152" => Some(NoBackfaceCulling)
    case "32" => Some(Door)
    case "512" => Some(CodeGlass)
    case "1024" => Some(ArtistGlass)
    case "2048" => Some(GarageDoor)
    case "8192" => Some(Tree)
    case "16384" => Some(PalmTree)
    case "1048576" => Some(Tag)
    case "4194304" => Some(NoCover)
    case "8388608" => Some(WetOnly)
    case "1" => Some(WetRoads)
    case "4096" => Some(Damageable)
    case "32768" => Some(NoFlyerCollide)
    case "0" => Some(SaDefault)
    case _ => None
  }

  /** The render distance property is clamped to 0..1200 (GTASceneSync.py:290). */
  type RenderDistance = d: int | 0 <= d <= 1200 witness 299

  /** The per-object IDE properties (`IDEFlagsProperties`). */
  datatype IdeProps = IdeProps(texture: string, distance: RenderDistance, flag: IdeFlag)

  const DefaultProps := IdeProps("generic", 299, SaDefault)

  datatype Vec3 = Vec3(x: real, y: real, z: real)

  /** One selected host object: its name, the names of the collections it
      belongs to (`users_collection`, in host order), whether it is a mesh,
      its IDE properties and its world location and rotation. */
  datatype SceneObject = SceneObject(
    name: string,
    collections: seq<string>,
    isMesh: bool,
    props: IdeProps,
    location: Vec3,
    rotation: Quat)

  /** The `base` name of an object: its first collection's name without
      `.dff`, or, when it is in no collection, its own name without a
      numeric suffix. The definition exporter keys on this directly. */
  function BaseName(o: SceneObject): string
  {
    if |o.collections| > 0 then CleanCollectionName(o.collections[0])
    else CleanName(o.name)
  }

  /** The key is cut from the name it comes from. An object in a
      collection is keyed by that collection's name, which is kept unless
      it ends with `.dff` in any case, and then loses exactly those four
      characters. An object in no collection is keyed by a prefix of its
      own name, the whole name when it holds no `.`. */
  lemma BaseNameSpec(o: SceneObject)
    ensures |o.collections| > 0 && !EndsWithNewline(o.collections[0]) ==>
      && BaseName(o) <= o.collections[0]
      && (BaseName(o) == o.collections[0] <==> !EndsWithIgnoreCase(o.collections[0], ".dff"))
      && |o.collections[0]| - |BaseName(o)| in {0, 4}
    ensures |o.collections| == 0 && !EndsWithNewline(o.name) ==> BaseName(o) <= o.name
    ensures |o.collections| == 0 && '.' !in o.name ==> BaseName(o) == o.name
  {
    if |o.collections| == 0 && '.' !in o.name {
      CleanNameWithoutDot(o.name);
    }
  }

  const Unnamed := "Unnamed"

  /** The key the placement exporter uses: the base name, with `Unnamed`
      standing in for an empty one (`name or 'Unnamed'`). */
  function PlacementName(o: SceneObject): (r: string)
    ensures r != ""
    ensures BaseName(o) != "" ==> r == BaseName(o)
  {
    var b := BaseName(o);
    if b == "" then Unnamed else b
  }

  /** Why an export stops before any file is opened. */
  datatype ExportError = NoMeshSelected

  /** The selected objects that are meshes, in selection order. */
  function Meshes(selected: seq<SceneObject>): (r: seq<SceneObject>)
    ensures |r| <= |selected|
    ensures forall o :: o in r ==> o in selected && o.isMesh
    ensures forall o :: o in selected && o.isMesh ==> o in r
  {
    if |selected| == 0 then []
    else
      var rest := Meshes(selected[1..]);
      assert forall o :: o in selected ==> o == selected[0] || o in selected[1..];
      if selected[0].isMesh then [selected[0]] + rest else rest
  }

  /** The starting id of the definition exporter: the operator's id unless
      it is zero, else the scene's id (registered with minimum 0), else
      4542 when the scene has none
      (`self.model_id or getattr(context.scene, "gtass_model_id", 4542)`). */
  function IdeStartId(modelId: int, sceneId: Option<nat>): (r: int)
    ensures modelId != 0 ==> r == modelId
    ensures modelId == 0 && sceneId.None? ==> r == 4542
    ensures modelId == 0 && sceneId.Some? ==> r == sceneId.value
  {
    if modelId != 0 then modelId else sceneId.GetOr(4542)
  }

  /** The starting id of the placement exporter: the operator's id unless
      it is zero, else the scene's id, which is registered with minimum 0. */
  function IplStartId(modelId: int, sceneId: nat): (r: int)
    ensures modelId != 0 ==> r == modelId
    ensures modelId == 0 ==> r == sceneId
  {
    if modelId != 0 then modelId else sceneId
  }

  /** Filtering distributes over concatenation: the meshes of a selection
      are the meshes of its parts, in the same order. */
  lemma {:induction false} MeshesAppend(a: seq<SceneObject>, b: seq<SceneObject>)
    ensures Meshes(a + b) == Meshes(a) + Meshes(b)
    decreases |a|
  {
    if |a| > 0 {
      assert (a + b)[1..] == a[1..] + b;
      MeshesAppend(a[1..], b);
    } else {
      assert a + b == b;
    }
  }

  /** A one-object selection keeps the object exactly when it is a mesh. */
  lemma MeshesSingle(o: SceneObject)
    ensures Meshes([o]) == if o.isMesh then [o] else []
  {
  }

  /** Once an object is in a collection, its own name no longer matters. */
  lemma CollectionWins(a: SceneObject, b: SceneObject)
    requires |a.collections| > 0 && |b.collections| > 0
    requires a.collections[0] == b.collections[0]
    ensures BaseName(a) == BaseName(b)
    ensures PlacementName(a) == PlacementName(b)
  {
  }

  /** Every identifier reads back as its own flag, so the flag column of a
      definition names exactly one flag. */
  lemma FlagIdentifierRoundTrip(f: IdeFlag)
    ensures FlagOfIdentifier(f.Identifier()) == Some(f)
  {
  }
}
