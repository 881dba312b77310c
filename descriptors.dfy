/**
 * The test descriptors the servers register and the runner evaluates: a
 * stage names its assets, materials and entities and may have child
 * stages.  Values are the JavaScript values those descriptors and the
 * engine objects built from them hold.
 */
module Descriptors {
  import opened Wrappers
  import opened Dict

  /** A JavaScript value; the last three cases are engine objects. */
  datatype Value =
    | Undefined
    | Null
    | Bool(b: bool)
    | Num(n: real)
    | Str(s: string)
    | Arr(items: seq<Value>)
    | Obj(fields: Dict<string, Value>)
    | Handle(id: nat)
    | AssetObj(name: string, kind: string, url: string, resource: Value)
    | MaterialObj(props: Dict<string, Value>)

  /** JavaScript truthiness. */
  predicate Truthy(v: Value) {
    match v
    case Undefined => false
    case Null => false
    case Bool(b) => b
    case Num(n) => n != 0.0
    case Str(s) => s != ""
    case _ => true
  }

  /** `{name, type, url}` of an asset to load. */
  datatype AssetDesc = AssetDesc(name: string, kind: string, url: string)

  /** `{name, options}` of a material to create. */
  datatype MaterialDesc = MaterialDesc(name: string, options: Dict<string, Value>)

  /**
   * An entity to create.  An absent string property is the empty string
   * and absent options are `{}`: the runner reads them only for their
   * truthiness or copies them with `Object.assign`.
   */
  datatype EntityDesc = EntityDesc(
    name: string,
    asset: string,
    componentType: string,
    componentOptions: Dict<string, Value>,
    position: Option<seq<real>>,
    eulerAngles: Option<seq<real>>,
    scale: Option<seq<real>>)

  /**
   * A test or one of its stages.  Absent `assets`, `materials` and
   * `entities` are empty, as the runner reads them with `|| []`.
   */
  datatype Stage = Stage(
    id: Option<string>,
    name: string,
    engine: Option<string>,
    draco: Option<string>,
    env: Option<string>,
    assets: seq<AssetDesc>,
    materials: seq<MaterialDesc>,
    entities: seq<EntityDesc>,
    children: Children)

  /** A stage's `children`: `NoChildren` exactly when the object has no such property. */
  datatype Children = NoChildren | HasChildren(stages: seq<Stage>)

  /** An entry of the glTF sample models' `model-index.json`: a model and its variants, each naming a file. */
  datatype Model = Model(name: string, variants: Dict<string, string>)

  /** `model.variants[variant]`; a key that is not there reads as `undefined`, which the template prints as such. */
  function VariantFile(m: Model, variant: string): string {
    match Get(m.variants, variant)
    case Some(file) => file
    case None => "undefined"
  }

  /** `{asset: ref}`: an entity instantiated from a loaded asset. */
  function AssetEntity(ref: string): EntityDesc {
    EntityDesc("", ref, "", [], None, None, None)
  }

  /** The engine build every server-side test loads. */
  const EngineUrl := "https://code.playcanvas.com/playcanvas-stable.js"

  /** The environment map every server-side test lights its scene with. */
  const EnvUrl := "assets/abandoned_tank_farm_01_2k.hdr"

  /** The Draco decoder the glTF tests load. */
  const DracoUrl := "draco/draco.wasm.js"
}
