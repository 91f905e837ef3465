/** Elements of an EVE scene: the tree nodes whose changes a scene tracks.

    A C++ `REveElement` is modelled by value: its id, whether it roots a scene
    of its own, its two visibility flags, its change stamps and the render
    data its `fRenderData->Write` would pack. The tree edge `fChildren` is an
    inline sequence of children; the self-referential `fScene == this` marker
    becomes the explicit `SceneRoot` role.
 */
module Elements {

  datatype Option<+T> = None | Some(value: T)

  /** `ElementId_t`: a process-unique element id. */
  type ElementId = nat

  type Byte = bv8

  /** The bytes `fRenderData->Write` packs for one element. Render data is
      laid out in 4-byte words, so its length is always a multiple of 4. */
  type RenderData = s: seq<Byte> | |s| % 4 == 0 witness []

  /** `UChar_t` change stamps, a bit mask. */
  type ChangeBits = bv8

  const kCBColorSelection: ChangeBits := 1
  const kCBTransBBox: ChangeBits := 2
  const kCBObjProps: ChangeBits := 4
  const kCBVisibility: ChangeBits := 8

  predicate HasBit(bits: ChangeBits, bit: ChangeBits) {
    bits & bit != 0
  }

  datatype Role = PlainElement | SceneRoot

  datatype Element = Element(
    id: ElementId,
    role: Role,
    rnrSelf: bool,
    rnrChildren: bool,
    changeBits: ChangeBits,
    renderData: RenderData,
    children: seq<Element>)

  /** The element a pointer with this id refers to: the first node in
      depth-first pre-order whose id matches. */
  function Find(e: Element, id: ElementId): (r: Option<Element>)
    ensures r.Some? ==> r.value.id == id
    decreases e
  {
    if e.id == id then Some(e) else FindIn(e.children, id)
  }

  function FindIn(cs: seq<Element>, id: ElementId): (r: Option<Element>)
    ensures r.Some? ==> r.value.id == id
    decreases cs
  {
    if cs == [] then None
    else match Find(cs[0], id)
      case Some(x) => Some(x)
      case None => FindIn(cs[1..], id)
  }

  /** `ClearStamps` applied to every element whose id is in `ids`: the tree
      keeps its shape and every element its data. */
  function ClearStamps(e: Element, ids: set<ElementId>): (r: Element)
    ensures SameExceptStamps(e, r) && |r.children| == |e.children|
    ensures e.id in ids ==> r.changeBits == 0
    ensures ids == {} ==> r == e
    decreases e
  {
    e.(changeBits := if e.id in ids then 0 else e.changeBits,
       children := ClearStampsIn(e.children, ids))
  }

  function ClearStampsIn(cs: seq<Element>, ids: set<ElementId>): (r: seq<Element>)
    ensures |r| == |cs|
    ensures ids == {} ==> r == cs
    decreases cs
  {
    if cs == [] then [] else [ClearStamps(cs[0], ids)] + ClearStampsIn(cs[1..], ids)
  }

  /** The same element as seen before the stamps were cleared: everything but
      its own stamps and its children's stamps agrees. */
  predicate SameExceptStamps(a: Element, b: Element) {
    a.id == b.id && a.role == b.role && a.rnrSelf == b.rnrSelf
    && a.rnrChildren == b.rnrChildren && a.renderData == b.renderData
  }

  /** Clearing stamps keeps every element findable, zeroes the stamps of the
      named ones and leaves every other element's stamps alone. */
  lemma {:induction false} ClearStampsFind(e: Element, ids: set<ElementId>, id: ElementId)
    ensures Find(ClearStamps(e, ids), id).Some? <==> Find(e, id).Some?
    ensures Find(e, id).Some? ==>
      var before := Find(e, id).value;
      var after := Find(ClearStamps(e, ids), id).value;
      SameExceptStamps(before, after)
      && after.changeBits == (if id in ids then 0 else before.changeBits)
    decreases e
  {
    if e.id != id {
      ClearStampsFindIn(e.children, ids, id);
    }
  }

  lemma {:induction false} ClearStampsFindIn(cs: seq<Element>, ids: set<ElementId>, id: ElementId)
    ensures FindIn(ClearStampsIn(cs, ids), id).Some? <==> FindIn(cs, id).Some?
    ensures FindIn(cs, id).Some? ==>
      var before := FindIn(cs, id).value;
      var after := FindIn(ClearStampsIn(cs, ids), id).value;
      SameExceptStamps(before, after)
      && after.changeBits == (if id in ids then 0 else before.changeBits)
    decreases cs
  {
    if cs != [] {
      var cleared := ClearStampsIn(cs, ids);
      assert cleared[0] == ClearStamps(cs[0], ids);
      assert cleared[1..] == ClearStampsIn(cs[1..], ids);
      ClearStampsFind(cs[0], ids, id);
      ClearStampsFindIn(cs[1..], ids, id);
    }
  }

  /** Clearing the same stamps twice is clearing them once. */
  lemma {:induction false} ClearStampsTwice(e: Element, ids: set<ElementId>)
    ensures ClearStamps(ClearStamps(e, ids), ids) == ClearStamps(e, ids)
    decreases e
  {
    ClearStampsInTwice(e.children, ids);
  }

  lemma {:induction false} ClearStampsInTwice(cs: seq<Element>, ids: set<ElementId>)
    ensures ClearStampsIn(ClearStampsIn(cs, ids), ids) == ClearStampsIn(cs, ids)
    decreases cs
  {
    if cs != [] {
      var once := ClearStampsIn(cs, ids);
      assert once[0] == ClearStamps(cs[0], ids);
      assert once[1..] == ClearStampsIn(cs[1..], ids);
      ClearStampsTwice(cs[0], ids);
      ClearStampsInTwice(cs[1..], ids);
    }
  }
}
