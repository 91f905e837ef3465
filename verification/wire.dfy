/** The structured frame a scene streams, as abstract records instead of JSON
    text, and the per-element encoder `WriteCoreJson` that fills them.
 */
module Wire {
  import opened Elements

  /** Where an element's render data sits in the binary frame. */
  datatype RenderRef = RenderRef(offset: nat, size: nat)

  /** The structured fields `WriteCoreJson` writes for one element, reduced
      to what the streaming logic depends on: which element, its role and
      visibility, and the binary slice it announces (none when the caller
      passed the "structured only" offset -1 or there is no render data). */
  datatype CoreJson = CoreJson(
    id: ElementId,
    role: Role,
    rnrSelf: bool,
    rnrChildren: bool,
    render: Option<RenderRef>)

  /** What `WriteCoreJson(jobj, offset)` produces: the record and the number
      of binary bytes the element will pack at `offset`. */
  datatype Encoding = Encoding(json: CoreJson, size: nat)

  /** The per-element encoder. A non-negative offset asks for render data to
      be announced at that offset; -1 asks for structured fields only. The
      size returned is the length of the payload `fRenderData->Write` packs,
      so it is a multiple of 4. */
  function WriteCoreJson(e: Element, offset: int): (r: Encoding)
    ensures r.json.id == e.id
    ensures r.json == CoreJson(e.id, e.role, e.rnrSelf, e.rnrChildren, r.json.render)
    ensures r.size % 4 == 0
    ensures offset < 0 ==> r.size == 0 && r.json.render.None?
    ensures offset >= 0 ==> r.size == |e.renderData|
    ensures r.json.render.Some? <==> r.size > 0
    ensures r.json.render.Some? ==> r.json.render.value == RenderRef(offset, r.size)
  {
    var size := if offset >= 0 then |e.renderData| else 0;
    var render := if size > 0 then Some(RenderRef(offset, size)) else None;
    Encoding(CoreJson(e.id, e.role, e.rnrSelf, e.rnrChildren, render), size)
  }

  datatype Visibility = Visibility(rnrSelf: bool, rnrChildren: bool)

  /** One entry of the records array.
      `Full` is a complete `WriteCoreJson` record (snapshot entries and added
      elements); `Change` is the diff entry of a changed element, whose
      optional parts are present according to its change bits. */
  datatype Record =
    | Full(core: CoreJson)
    | Change(
        id: ElementId,
        bits: ChangeBits,
        visibility: Option<Visibility>,
        colorSelection: Option<CoreJson>,
        objProps: Option<CoreJson>)

  function RecordId(rec: Record): ElementId {
    match rec
    case Full(core) => core.id
    case Change(id, _, _, _, _) => id
  }

  /** The binary slice a record announces, if any. */
  function Announced(rec: Record): Option<RenderRef> {
    match rec
    case Full(core) => core.render
    case Change(_, _, _, _, props) => if props.Some? then props.value.render else None
  }

  /** A scene command offered to clients in the snapshot header. */
  datatype Command = Command(
    name: string, icon: string, elementId: ElementId, elementClass: string, action: string)

  /** The structured frame. `Snapshot` is the array whose first entry is the
      header of `StreamElements`; `Changes` is the `{header, arr}` object of
      `StreamRepresentationChanges`. `Empty` is the frame before any
      streaming. */
  datatype Json =
    | Empty
    | Snapshot(
        sceneId: ElementId,
        commands: Option<seq<Command>>,
        totalBinarySize: nat,
        records: seq<Record>)
    | Changes(
        sceneId: ElementId,
        removedElements: seq<ElementId>,
        numRepresentationChanged: nat,
        totalBinarySize: nat,
        records: seq<Record>)

  type ConnId = nat
  type WindowId = nat

  /** A send on a client's web window, as recorded in a trace. */
  datatype Event =
    | SendJson(window: WindowId, conn: ConnId, json: Json)
    | SendBinary(window: WindowId, conn: ConnId, data: seq<Byte>)
}
