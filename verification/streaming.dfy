/** The two streaming paths of `REveScene` and delivery to subscribers.

    `StreamElements` lists the whole scene (header, the scene's own record,
    then its subtree depth-first); `StreamRepresentationChanges` lists only
    the pending changes. Both fill the records with a first pass and the
    binary frame with the second pass of the `Packing` module.
 */
module Streaming {
  import opened Elements
  import opened Wire
  import opened Packing
  import opened Scenes
  import Ordering

  /** Record `n + i` is the one listed for `vs[i]`. */
  predicate ListedAt(records: seq<Record>, n: nat, vs: seq<Element>, i: nat)
    requires i < |vs| && n + i < |records|
  {
    RecordId(records[n + i]) == vs[i].id
  }

  /** Entry `k` was announced by one of the records listed for `vs` from
      `n` on, and its payload is that element's render data. */
  predicate CarriedAt(r: Pass, n: nat, vs: seq<Element>, k: nat)
    requires k < |r.bins|
  {
    var at := r.bins[k].at;
    n <= at < n + |vs| && at < |r.records| && r.bins[k].payload == vs[at - n].renderData
  }

  /** `r` extends `p` by one record per element of `vs`, in that order, and
      every payload it adds is the render data of the element whose record
      announced it. */
  predicate Follows(p: Pass, r: Pass, vs: seq<Element>) {
    && |r.records| == |p.records| + |vs|
    && r.records[..|p.records|] == p.records
    && (forall i :: 0 <= i < |vs| ==> ListedAt(r.records, |p.records|, vs, i))
    && |p.bins| <= |r.bins|
    && r.bins[..|p.bins|] == p.bins
    && (forall k :: |p.bins| <= k < |r.bins| ==> CarriedAt(r, |p.records|, vs, k))
  }

  lemma FollowsNothing(p: Pass)
    ensures Follows(p, p, [])
  {
  }

  lemma FollowsTrans(p: Pass, q: Pass, r: Pass, a: seq<Element>, b: seq<Element>)
    requires Follows(p, q, a) && Follows(q, r, b)
    ensures Follows(p, r, a + b)
  {
    assert r.records[..|p.records|] == q.records[..|p.records|];
    assert r.bins[..|p.bins|] == q.bins[..|p.bins|];
    forall i | 0 <= i < |a| + |b|
      ensures ListedAt(r.records, |p.records|, a + b, i)
    {
      if i < |a| {
        assert ListedAt(q.records, |p.records|, a, i);
        assert r.records[|p.records| + i] == q.records[|p.records| + i];
      } else {
        assert ListedAt(r.records, |q.records|, b, i - |a|);
        assert |p.records| + i == |q.records| + (i - |a|);
      }
    }
    forall k | |p.bins| <= k < |r.bins|
      ensures CarriedAt(r, |p.records|, a + b, k)
    {
      if k < |q.bins| {
        assert CarriedAt(q, |p.records|, a, k);
        assert r.bins[k] == q.bins[k];
      } else {
        assert CarriedAt(r, |q.records|, b, k);
      }
    }
  }

  lemma FollowsPush(p: Pass, rec: Record, e: Element, counted: bool)
    requires Packed(p)
    requires RecordId(rec) == e.id
    requires counted ==> |e.renderData| > 0 && Announced(rec) == Some(RenderRef(p.total, |e.renderData|))
    ensures Follows(p, Push(p, rec, e.renderData, counted), [e])
  {
    var r := Push(p, rec, e.renderData, counted);
    assert r.bins[..|p.bins|] == p.bins;
    assert ListedAt(r.records, |p.records|, [e], 0);
  }

  /** `records` list `vs` one for one, and every entry's payload is the
      render data of the element whose record announced it. */
  predicate Lists(records: seq<Record>, bins: seq<Bin>, vs: seq<Element>) {
    && |records| == |vs|
    && (forall i :: 0 <= i < |vs| ==> RecordId(records[i]) == vs[i].id)
    && (forall k :: 0 <= k < |bins| ==> bins[k].at < |vs| && bins[k].payload == vs[bins[k].at].renderData)
  }

  /** A pass that follows `vs` from nothing lists exactly `vs`. */
  lemma FollowsFromStart(p: Pass, vs: seq<Element>)
    requires Follows(Start, p, vs)
    ensures Lists(p.records, p.bins, vs)
  {
    forall i | 0 <= i < |vs|
      ensures RecordId(p.records[i]) == vs[i].id
    {
      assert ListedAt(p.records, 0, vs, i);
    }
    forall k | 0 <= k < |p.bins|
      ensures p.bins[k].at < |vs| && p.bins[k].payload == vs[p.bins[k].at].renderData
    {
      assert CarriedAt(p, 0, vs, k);
    }
  }

  /** No record is exempt from listing its payload. */
  predicate Never(rec: Record) {
    false
  }

  /** A scene's own record, the one kind a snapshot may announce without
      listing its payload. */
  predicate IsSceneRecord(rec: Record) {
    rec.Full? && rec.core.role == SceneRoot
  }

  // ---------------------------------------------------------------------------
  // Full snapshot

  /** A nested scene: a scene root other than the scene being streamed. */
  predicate IsNested(e: Element, isThis: bool) {
    e.role == SceneRoot && !isThis
  }

  /** Entry `k` belongs to an exempt record or to a record that is not a
      scene's own. */
  predicate PlainAt(r: Pass, exempt: set<nat>, k: nat)
    requires k < |r.bins|
  {
    r.bins[k].at < |r.records|
    && (r.bins[k].at in exempt || !IsSceneRecord(r.records[r.bins[k].at]))
  }

  /** No entry from `from` on carries a scene's render data, unless its record
      is exempt: a nested scene's render data is never counted. */
  predicate Plain(r: Pass, from: nat, exempt: set<nat>) {
    forall k :: from <= k < |r.bins| ==> PlainAt(r, exempt, k)
  }

  /** Entries appended after a plain run, themselves plain, keep it plain. */
  lemma PlainJoin(q: Pass, r: Pass, from: nat, exempt: set<nat>)
    requires |q.bins| <= |r.bins| && r.bins[..|q.bins|] == q.bins
    requires |q.records| <= |r.records| && r.records[..|q.records|] == q.records
    requires Plain(q, from, exempt) && Plain(r, |q.bins|, {})
    ensures Plain(r, from, exempt)
  {
    forall k | from <= k < |r.bins|
      ensures PlainAt(r, exempt, k)
    {
      if k < |q.bins| {
        assert PlainAt(q, exempt, k);
        assert r.bins[k] == q.bins[k];
        assert r.records[q.bins[k].at] == q.records[q.bins[k].at];
      } else {
        assert PlainAt(r, {}, k);
      }
    }
  }

  /** A full record: the element's complete encoding, announcing a slice
      of its render data's length exactly when it has render data. Snapshot
      records and the entries of added elements are of this form. */
  predicate Encodes(rec: Record, e: Element) {
    && rec.Full?
    && rec.core == CoreJson(e.id, e.role, e.rnrSelf, e.rnrChildren, rec.core.render)
    && (rec.core.render.Some? <==> |e.renderData| > 0)
    && (rec.core.render.Some? ==> rec.core.render.value.size == |e.renderData|)
  }

  /** Record `n + i` encodes `vs[i]`. */
  predicate EncodedAt(records: seq<Record>, n: nat, vs: seq<Element>, i: nat)
    requires i < |vs| && n + i < |records|
  {
    Encodes(records[n + i], vs[i])
  }

  /** The records from `n` on encode `vs`, one for one. */
  predicate Encoded(records: seq<Record>, n: nat, vs: seq<Element>) {
    n + |vs| <= |records| && forall i :: 0 <= i < |vs| ==> EncodedAt(records, n, vs, i)
  }

  /** Two consecutive encoded runs make one. */
  lemma EncodedJoin(q: seq<Record>, r: seq<Record>, n: nat, a: seq<Element>, b: seq<Element>)
    requires Encoded(q, n, a) && n + |a| == |q|
    requires |q| <= |r| && r[..|q|] == q
    requires Encoded(r, |q|, b)
    ensures Encoded(r, n, a + b)
  {
    forall i | 0 <= i < |a + b|
      ensures EncodedAt(r, n, a + b, i)
    {
      if i < |a| {
        assert EncodedAt(q, n, a, i);
        assert r[n + i] == q[n + i];
      } else {
        assert EncodedAt(r, |q|, b, i - |a|);
        assert n + i == |q| + (i - |a|);
      }
    }
  }

  /** The elements a snapshot lists, in order: depth-first, parent before
      children, with a nested scene listed but not entered. */
  function Visited(e: Element, isThis: bool): (vs: seq<Element>)
    ensures |vs| > 0 && vs[0] == e
    decreases e
  {
    [e] + (if IsNested(e, isThis) then [] else VisitedAll(e.children))
  }

  function VisitedAll(cs: seq<Element>): seq<Element>
    decreases cs
  {
    if cs == [] then [] else Visited(cs[0], false) + VisitedAll(cs[1..])
  }

  /** `StreamJsonRecurse`: the element's record is encoded with the running
      total as its offset; unless the element is a nested scene, its render
      data is counted and its children are visited in order. */
  function StreamJsonRecurse(e: Element, isThis: bool, p: Pass): (r: Pass)
    requires Packed(p)
    ensures Packed(r)
    ensures Follows(p, r, Visited(e, isThis))
    ensures r.records[|p.records|] == Full(WriteCoreJson(e, p.total).json)
    ensures IsNested(e, isThis) ==> |r.records| == |p.records| + 1 && r.bins == p.bins && r.total == p.total
    ensures Covered(r.records, r.bins, |p.records|, IsSceneRecord)
    ensures !IsNested(e, isThis) ==> CoveredAt(r.records, r.bins, |p.records|, Never)
    ensures Encoded(r.records, |p.records|, Visited(e, isThis))
    ensures Plain(r, |p.bins|, if isThis then {|p.records|} else {})
    decreases e
  {
    var enc := WriteCoreJson(e, p.total);
    var counted := !IsNested(e, isThis) && enc.size > 0;
    var q := Push(p, Full(enc.json), e.renderData, counted);
    FollowsPush(p, Full(enc.json), e, counted);
    PushCovered(p, Full(enc.json), e.renderData, counted, |p.records|, IsSceneRecord);
    assert EncodedAt(q.records, |p.records|, [e], 0);
    assert counted ==> PlainAt(q, if isThis then {|p.records|} else {}, |p.bins|);
    if IsNested(e, isThis) then
      q
    else
      PushCovered(p, Full(enc.json), e.renderData, counted, |p.records|, Never);
      assert CoveredAt(q.records, q.bins, |p.records|, Never);
      var r := StreamJsonRecurseAll(e.children, q);
      FollowsTrans(p, q, r, [e], VisitedAll(e.children));
      CoveredJoin(q, r, |p.records|, IsSceneRecord);
      EncodedJoin(q.records, r.records, |p.records|, [e], VisitedAll(e.children));
      AtsGrow(q.bins, r.bins, |p.records|);
      assert r.records[|p.records|] == q.records[|p.records|];
      PlainJoin(q, r, |p.bins|, if isThis then {|p.records|} else {});
      r
  }

  function StreamJsonRecurseAll(cs: seq<Element>, p: Pass): (r: Pass)
    requires Packed(p)
    ensures Packed(r)
    ensures Follows(p, r, VisitedAll(cs))
    ensures Covered(r.records, r.bins, |p.records|, IsSceneRecord)
    ensures Encoded(r.records, |p.records|, VisitedAll(cs))
    ensures Plain(r, |p.bins|, {})
    decreases cs
  {
    if cs == [] then
      FollowsNothing(p);
      p
    else
      var q := StreamJsonRecurse(cs[0], false, p);
      var r := StreamJsonRecurseAll(cs[1..], q);
      FollowsTrans(p, q, r, Visited(cs[0], false), VisitedAll(cs[1..]));
      CoveredJoin(q, r, |p.records|, IsSceneRecord);
      EncodedJoin(q.records, r.records, |p.records|, Visited(cs[0], false), VisitedAll(cs[1..]));
      PlainJoin(q, r, |p.bins|, {});
      r
  }

  /** Entry `k` of the output sits in the binary frame at the sum of the
      sizes before it, where its record announced it. */
  predicate FramedAt(records: seq<Record>, o: Output, k: nat)
    requires k < |o.bins|
  {
    var b := o.bins[k];
    && b.offset == SumSizes(o.bins[..k])
    && Holds(o.binary, b)
    && b.at < |records|
    && Announced(records[b.at]) == Some(RenderRef(b.offset, |b.payload|))
  }

  /** The binary frame agrees with the records: its length is the sum of the
      listed payload sizes, each payload sits at the offset its record
      announced, and the payloads follow the records' order. */
  predicate Framed(records: seq<Record>, o: Output) {
    && |o.binary| == SumSizes(o.bins)
    && |o.binary| % 4 == 0
    && o.binary == Concat(o.bins)
    && (forall k :: 0 <= k < |o.bins| ==> FramedAt(records, o, k))
    && (forall k, l :: 0 <= k < l < |o.bins| ==> o.bins[k].at < o.bins[l].at)
  }

  /** Both paths end alike: the first pass's records and entries become the
      output, under the given header, with the binary frame packed from the
      entries. */
  function Finish(p: Pass, json: Json): (o: Output)
    requires Packed(p)
    ensures o.json == json && o.bins == p.bins
    ensures |o.binary| == p.total
    ensures Framed(p.records, o)
  {
    var o := Output(json, PackBinary(p), p.bins);
    forall k | 0 <= k < |p.bins|
      ensures FramedAt(p.records, o, k)
    {
      assert Placed(p, k);
    }
    forall k, l | 0 <= k < l < |p.bins|
      ensures p.bins[k].at < p.bins[l].at
    {
      PackedOrdered(p, k, l);
    }
    o
  }

  /** `StreamElements`: the full snapshot. The header names the scene and its
      commands (omitted when there are none) and carries the total binary
      size; the records list the scene itself first and then its subtree in
      pre-order, stopping at nested scenes; only the output changes. */
  function StreamElements(s: Scene): (r: Scene)
    ensures r == s.(output := r.output)
    ensures r.output.json.Snapshot?
    ensures r.output.json.sceneId == s.root.id
    ensures r.output.json.commands == (if |s.commands| > 0 then Some(s.commands) else None)
    ensures r.output.json.totalBinarySize == TotalBinarySize(r)
    ensures Framed(r.output.json.records, r.output)
    ensures Lists(r.output.json.records, r.output.bins, Visited(s.root, true))
    ensures r.output.json.records[0] == Full(WriteCoreJson(s.root, 0).json)
    ensures CoveredAt(r.output.json.records, r.output.bins, 0, Never)
    ensures Covered(r.output.json.records, r.output.bins, 1, IsSceneRecord)
    ensures Encoded(r.output.json.records, 0, Visited(s.root, true))
    ensures forall k :: 0 <= k < |r.output.bins| ==>
      && r.output.bins[k].at < |r.output.json.records|
      && (r.output.bins[k].at == 0 || !IsSceneRecord(r.output.json.records[r.output.bins[k].at]))
  {
    var p := StreamJsonRecurse(s.root, true, Start);
    forall k | 0 <= k < |p.bins|
      ensures p.bins[k].at < |p.records|
      ensures p.bins[k].at == 0 || !IsSceneRecord(p.records[p.bins[k].at])
    {
      assert PlainAt(p, {0}, k);
    }
    FollowsFromStart(p, Visited(s.root, true));
    var commands := if |s.commands| > 0 then Some(s.commands) else None;
    s.(output := Finish(p, Snapshot(s.root.id, commands, p.total, p.records)))
  }

  /** Every element the snapshot visits that has render data and is not a
      nested scene has that render data in the binary frame, at the slice
      its record announces. */
  lemma SnapshotCarriesEveryPayload(s: Scene, i: nat)
    requires i < |Visited(s.root, true)|
    requires |Visited(s.root, true)[i].renderData| > 0
    requires i == 0 || Visited(s.root, true)[i].role != SceneRoot
    ensures var o := StreamElements(s).output;
      exists k :: 0 <= k < |o.bins| && o.bins[k].at == i
        && o.bins[k].payload == Visited(s.root, true)[i].renderData
        && Holds(o.binary, o.bins[k])
        && Announced(o.json.records[i]) == Some(RenderRef(o.bins[k].offset, |o.bins[k].payload|))
  {
    var o := StreamElements(s).output;
    var vs := Visited(s.root, true);
    assert EncodedAt(o.json.records, 0, vs, i);
    if i == 0 {
      assert CoveredAt(o.json.records, o.bins, 0, Never);
    } else {
      assert CoveredAt(o.json.records, o.bins, i, IsSceneRecord);
    }
    var k :| 0 <= k < |o.bins| && Ats(o.bins)[k] == i;
    assert FramedAt(o.json.records, o, k);
  }

  /** The converse direction: a nested scene below the snapshot's own scene
      has no entry, so none of its render data reaches the binary frame or
      the total. */
  lemma SnapshotOmitsNestedPayloads(s: Scene, i: nat)
    requires 0 < i < |Visited(s.root, true)|
    requires Visited(s.root, true)[i].role == SceneRoot
    ensures var o := StreamElements(s).output;
      forall k :: 0 <= k < |o.bins| ==> o.bins[k].at != i
  {
    var o := StreamElements(s).output;
    assert EncodedAt(o.json.records, 0, Visited(s.root, true), i);
    assert IsSceneRecord(o.json.records[i]);
  }

  /** A nested scene contributes its own record and nothing else, whatever
      it holds. */
  lemma NestedSceneIsOpaque(e: Element, p: Pass)
    requires Packed(p) && e.role == SceneRoot
    ensures Visited(e, false) == [e]
    ensures var r := StreamJsonRecurse(e, false, p);
      r.records == p.records + [Full(WriteCoreJson(e, p.total).json)] && r.bins == p.bins
  {
  }

  /** A scene with no children and no render data of its own streams one
      record and an empty binary frame. */
  lemma EmptySceneSnapshot(s: Scene)
    requires s.root.children == [] && |s.root.renderData| == 0
    ensures |StreamElements(s).output.json.records| == 1
    ensures TotalBinarySize(StreamElements(s)) == 0
  {
    assert Visited(s.root, true) == [s.root];
  }

  // ---------------------------------------------------------------------------
  // Incremental diff

  /** The diff entry of a changed element: its id and stamps, the visibility
      flags when `kCBVisibility` is set, a structured-only encoding when
      `kCBColorSelection` is set, a full encoding when `kCBObjProps` is set,
      and nothing for `kCBTransBBox`. */
  predicate DescribesChange(rec: Record, e: Element) {
    && rec.Change?
    && rec.id == e.id
    && rec.bits == e.changeBits
    && (rec.visibility.Some? <==> HasBit(e.changeBits, kCBVisibility))
    && (rec.visibility.Some? ==> rec.visibility.value == Visibility(e.rnrSelf, e.rnrChildren))
    && (rec.colorSelection.Some? <==> HasBit(e.changeBits, kCBColorSelection))
    && (rec.colorSelection.Some? ==>
          rec.colorSelection.value == CoreJson(e.id, e.role, e.rnrSelf, e.rnrChildren, None))
    && (rec.objProps.Some? <==> HasBit(e.changeBits, kCBObjProps))
    && (rec.objProps.Some? ==> Encodes(Full(rec.objProps.value), e))
  }

  /** The entry of an added element: always its full encoding. */
  predicate DescribesAdded(rec: Record, e: Element) {
    Encodes(rec, e)
  }

  /** One iteration of the loop over the changed set. */
  function ChangeEntry(e: Element, p: Pass): (r: Pass)
    requires Packed(p)
    ensures Packed(r)
    ensures Follows(p, r, [e])
    ensures |r.records| == |p.records| + 1 && DescribesChange(r.records[|p.records|], e)
    ensures Covered(r.records, r.bins, |p.records|, Never)
  {
    var bits := e.changeBits;
    var vis := if HasBit(bits, kCBVisibility) then Some(Visibility(e.rnrSelf, e.rnrChildren)) else None;
    var color := if HasBit(bits, kCBColorSelection) then Some(WriteCoreJson(e, -1).json) else None;
    // kCBTransBBox carries no fields.
    if HasBit(bits, kCBObjProps) then
      var enc := WriteCoreJson(e, p.total);
      var rec := Change(e.id, bits, vis, color, Some(enc.json));
      FollowsPush(p, rec, e, enc.size != 0);
      PushCovered(p, rec, e.renderData, enc.size != 0, |p.records|, Never);
      Push(p, rec, e.renderData, enc.size != 0)
    else
      var rec := Change(e.id, bits, vis, color, None);
      FollowsPush(p, rec, e, false);
      PushCovered(p, rec, e.renderData, false, |p.records|, Never);
      Push(p, rec, e.renderData, false)
  }

  /** One iteration of the loop over the added set. */
  function AddedEntry(e: Element, p: Pass): (r: Pass)
    requires Packed(p)
    ensures Packed(r)
    ensures Follows(p, r, [e])
    ensures |r.records| == |p.records| + 1 && DescribesAdded(r.records[|p.records|], e)
    ensures Covered(r.records, r.bins, |p.records|, Never)
  {
    var enc := WriteCoreJson(e, p.total);
    FollowsPush(p, Full(enc.json), e, enc.size != 0);
    PushCovered(p, Full(enc.json), e.renderData, enc.size != 0, |p.records|, Never);
    Push(p, Full(enc.json), e.renderData, enc.size != 0)
  }

  /** Each of `vs` is the element of the scene its id names. */
  predicate Resolved(s: Scene, vs: seq<Element>) {
    forall i :: 0 <= i < |vs| ==> Find(s.root, vs[i].id).Some? && vs[i] == Resolve(s, vs[i].id)
  }

  /** The elements the pending ids name, in iteration order. */
  function ResolveAll(s: Scene, ids: seq<ElementId>): (vs: seq<Element>)
    requires forall id :: id in ids ==> Find(s.root, id).Some?
    ensures |vs| == |ids|
    ensures forall i :: 0 <= i < |ids| ==> vs[i] == Resolve(s, ids[i])
    ensures Resolved(s, vs)
  {
    seq(|ids|, i requires 0 <= i < |ids| => Resolve(s, ids[i]))
  }

  /** Consing one entry in front of a run of entries keeps every entry
      described by its element. */
  lemma EntriesStep(p: Pass, q: Pass, r: Pass, vs: seq<Element>, describes: (Record, Element) -> bool)
    requires |vs| > 0
    requires |q.records| == |p.records| + 1 && describes(q.records[|p.records|], vs[0])
    requires |r.records| == |q.records| + |vs| - 1 && r.records[..|q.records|] == q.records
    requires forall i :: 0 <= i < |vs| - 1 ==> describes(r.records[|q.records| + i], vs[1..][i])
    ensures forall i :: 0 <= i < |vs| ==> describes(r.records[|p.records| + i], vs[i])
  {
    forall i | 0 <= i < |vs|
      ensures describes(r.records[|p.records| + i], vs[i])
    {
      if i == 0 {
        assert r.records[|p.records|] == q.records[|p.records|];
      } else {
        assert |p.records| + i == |q.records| + (i - 1);
        assert vs[1..][i - 1] == vs[i];
      }
    }
  }

  function ChangedEntries(vs: seq<Element>, p: Pass): (r: Pass)
    requires Packed(p)
    ensures Packed(r)
    ensures Follows(p, r, vs)
    ensures forall i :: 0 <= i < |vs| ==> DescribesChange(r.records[|p.records| + i], vs[i])
    ensures Covered(r.records, r.bins, |p.records|, Never)
    decreases |vs|
  {
    if vs == [] then
      FollowsNothing(p);
      p
    else
      var q := ChangeEntry(vs[0], p);
      var r := ChangedEntries(vs[1..], q);
      FollowsTrans(p, q, r, [vs[0]], vs[1..]);
      assert [vs[0]] + vs[1..] == vs;
      EntriesStep(p, q, r, vs, DescribesChange);
      CoveredJoin(q, r, |p.records|, Never);
      r
  }

  function AddedEntries(vs: seq<Element>, p: Pass): (r: Pass)
    requires Packed(p)
    ensures Packed(r)
    ensures Follows(p, r, vs)
    ensures forall i :: 0 <= i < |vs| ==> DescribesAdded(r.records[|p.records| + i], vs[i])
    ensures Covered(r.records, r.bins, |p.records|, Never)
    decreases |vs|
  {
    if vs == [] then
      FollowsNothing(p);
      p
    else
      var q := AddedEntry(vs[0], p);
      var r := AddedEntries(vs[1..], q);
      FollowsTrans(p, q, r, [vs[0]], vs[1..]);
      assert [vs[0]] + vs[1..] == vs;
      EntriesStep(p, q, r, vs, DescribesAdded);
      CoveredJoin(q, r, |p.records|, Never);
      r
  }

  lemma ClearStampsFindAll(e: Element, ids: set<ElementId>)
    ensures forall id :: Find(ClearStamps(e, ids), id).Some? <==> Find(e, id).Some?
    ensures forall id :: Find(e, id).Some? ==>
      && Find(ClearStamps(e, ids), id).Some?
      && SameExceptStamps(Find(e, id).value, Find(ClearStamps(e, ids), id).value)
      && Find(ClearStamps(e, ids), id).value.changeBits
           == (if id in ids then 0 else Find(e, id).value.changeBits)
  {
    forall id
      ensures Find(ClearStamps(e, ids), id).Some? <==> Find(e, id).Some?
      ensures Find(e, id).Some? ==>
        && SameExceptStamps(Find(e, id).value, Find(ClearStamps(e, ids), id).value)
        && Find(ClearStamps(e, ids), id).value.changeBits
             == (if id in ids then 0 else Find(e, id).value.changeBits)
    {
      ClearStampsFind(e, ids, id);
    }
  }

  /** The entries from `n` on list a pending set: one per member, each
      described by the element it names, no element twice. */
  predicate Pending(
    s: Scene, pending: set<ElementId>, records: seq<Record>, n: nat,
    describes: (Record, Element) -> bool)
    requires forall id :: id in pending ==> Find(s.root, id).Some?
  {
    && n + |pending| <= |records|
    && (forall i :: n <= i < n + |pending| ==>
          RecordId(records[i]) in pending
          && describes(records[i], Resolve(s, RecordId(records[i]))))
    && (forall i, j :: n <= i < j < n + |pending| ==> RecordId(records[i]) != RecordId(records[j]))
  }

  /** Every binary entry is the render data of the element whose record
      announced it. */
  predicate Carries(s: Scene, records: seq<Record>, bins: seq<Bin>) {
    forall k :: 0 <= k < |bins| ==>
      && bins[k].at < |records|
      && Find(s.root, RecordId(records[bins[k].at])).Some?
      && bins[k].payload == Resolve(s, RecordId(records[bins[k].at])).renderData
  }

  /** The diff's records and entries: the changed entries, then the added
      entries, and nothing else. */
  predicate DiffLists(s: Scene, records: seq<Record>, bins: seq<Bin>)
    requires Resolves(s)
  {
    && |records| == |s.changed| + |s.added|
    && Pending(s, s.changed, records, 0, DescribesChange)
    && Pending(s, s.added, records, |s.changed|, DescribesAdded)
    && Carries(s, records, bins)
    && Covered(records, bins, 0, Never)
  }

  /** `vs` are the members of `pending`, each once, in iteration order,
      each the element of the scene its id names. */
  predicate Enumerates(s: Scene, pending: set<ElementId>, vs: seq<Element>) {
    && |vs| == |pending|
    && (forall i :: 0 <= i < |vs| ==> vs[i].id in pending)
    && (forall i, j :: 0 <= i < j < |vs| ==> vs[i].id < vs[j].id)
    && Resolved(s, vs)
  }

  /** The elements of a pending set, in iteration order. */
  function Enumerate(s: Scene, pending: set<ElementId>): (vs: seq<Element>)
    requires forall id :: id in pending ==> Find(s.root, id).Some?
    ensures Enumerates(s, pending, vs)
  {
    var ids := Ordering.Ascending(pending);
    var vs := ResolveAll(s, ids);
    assert forall i :: 0 <= i < |vs| ==> vs[i].id == ids[i];
    vs
  }

  function ChangedElements(s: Scene): (vs: seq<Element>)
    requires Resolves(s)
    ensures Enumerates(s, s.changed, vs)
  {
    Enumerate(s, s.changed)
  }

  function AddedElements(s: Scene): (vs: seq<Element>)
    requires Resolves(s)
    ensures Enumerates(s, s.added, vs)
  {
    Enumerate(s, s.added)
  }

  /** The first pass of the diff: the changed set, then the added set, each
      in iteration order. */
  function DiffPass(s: Scene): (q: Pass)
    requires Resolves(s)
    ensures Packed(q)
    ensures DiffLists(s, q.records, q.bins)
  {
    Entries(s, ChangedElements(s), AddedElements(s))
  }

  /** Both loops, over the given enumerations of the pending sets. */
  function Entries(s: Scene, changed: seq<Element>, added: seq<Element>): (q: Pass)
    requires Resolves(s)
    requires Enumerates(s, s.changed, changed) && Enumerates(s, s.added, added)
    ensures Packed(q)
    ensures DiffLists(s, q.records, q.bins)
  {
    var p := ChangedEntries(changed, Start);
    var q := AddedEntries(added, p);
    DiffListed(s, changed, added, p, q);
    q
  }

  /** The records of the two loops list the changed set, then the added set,
      and every entry carries the payload of the element that announced it. */
  lemma DiffListed(s: Scene, changed: seq<Element>, added: seq<Element>, p: Pass, q: Pass)
    requires Resolves(s)
    requires Enumerates(s, s.changed, changed) && Enumerates(s, s.added, added)
    requires Follows(Start, p, changed)
    requires forall i :: 0 <= i < |changed| ==> DescribesChange(p.records[|Start.records| + i], changed[i])
    requires Follows(p, q, added)
    requires forall i :: 0 <= i < |added| ==> DescribesAdded(q.records[|p.records| + i], added[i])
    requires Covered(p.records, p.bins, 0, Never) && Covered(q.records, q.bins, |p.records|, Never)
    ensures DiffLists(s, q.records, q.bins)
  {
    LoopPending(s, s.changed, changed, Start, p, DescribesChange);
    PendingPrefix(s, s.changed, p.records, q.records, 0, DescribesChange);
    LoopPending(s, s.added, added, p, q, DescribesAdded);
    FollowsTrans(Start, p, q, changed, added);
    DiffPayloads(s, changed, added, q);
    CoveredJoin(p, q, 0, Never);
  }

  /** `StreamRepresentationChanges`: the diff.
      The header names the scene, lists the removed ids in the order they
      were reported and counts the changed elements; the records hold one
      entry per changed element followed by one per added element; the
      stamps of the changed elements are cleared; all three pending
      collections are emptied; nothing else of the scene changes. */
  function StreamRepresentationChanges(s: Scene): (r: Scene)
    requires Resolves(s)
    ensures r.changed == {} && r.added == {} && r.removed == []
    ensures !IsChanged(r)
    ensures r == s.(root := r.root, changed := {}, added := {}, removed := [], output := r.output)
    ensures r.root == ClearStamps(s.root, s.changed)
    ensures forall id :: Find(r.root, id).Some? <==> Find(s.root, id).Some?
    ensures forall id :: Find(s.root, id).Some? ==>
      && Find(r.root, id).Some?
      && SameExceptStamps(Find(s.root, id).value, Find(r.root, id).value)
      && Find(r.root, id).value.changeBits
           == (if id in s.changed then 0 else Find(s.root, id).value.changeBits)
    ensures r.output.json.Changes?
    ensures r.output.json.sceneId == s.root.id
    ensures r.output.json.removedElements == s.removed
    ensures r.output.json.numRepresentationChanged == |s.changed|
    ensures r.output.json.totalBinarySize == TotalBinarySize(r)
    ensures Framed(r.output.json.records, r.output)
    ensures DiffLists(s, r.output.json.records, r.output.bins)
  {
    var q := DiffPass(s);
    ClearStampsFindAll(s.root, s.changed);
    var out := Finish(q, Changes(s.root.id, s.removed, |s.changed|, q.total, q.records));
    s.(root := ClearStamps(s.root, s.changed), changed := {}, added := {}, removed := [],
       output := out)
  }

  /** The loop over a pending set, run from `p` to `q`, lists that set. */
  lemma LoopPending(
    s: Scene, pending: set<ElementId>, els: seq<Element>,
    p: Pass, q: Pass, describes: (Record, Element) -> bool)
    requires forall id :: id in pending ==> Find(s.root, id).Some?
    requires Enumerates(s, pending, els)
    requires Follows(p, q, els)
    requires forall i :: 0 <= i < |els| ==> describes(q.records[|p.records| + i], els[i])
    ensures Pending(s, pending, q.records, |p.records|, describes)
  {
    var n := |p.records|;
    forall i | n <= i < n + |els|
      ensures RecordId(q.records[i]) == els[i - n].id
      ensures RecordId(q.records[i]) in pending
      ensures describes(q.records[i], Resolve(s, RecordId(q.records[i])))
    {
      assert ListedAt(q.records, n, els, i - n);
      assert q.records[n + (i - n)] == q.records[i];
    }
    forall i, j | n <= i < j < n + |els|
      ensures RecordId(q.records[i]) != RecordId(q.records[j])
    {
      assert els[i - n].id < els[j - n].id;
    }
  }

  /** Appending entries leaves the ones already listed as they were. */
  lemma PendingPrefix(
    s: Scene, pending: set<ElementId>, a: seq<Record>, b: seq<Record>, n: nat,
    describes: (Record, Element) -> bool)
    requires forall id :: id in pending ==> Find(s.root, id).Some?
    requires Pending(s, pending, a, n, describes)
    requires |a| <= |b| && b[..|a|] == a
    ensures Pending(s, pending, b, n, describes)
  {
    forall i | n <= i < n + |pending|
      ensures b[i] == a[i]
    {
    }
  }

  /** Every binary entry of the diff is the render data of the element whose
      record announced it. */
  lemma DiffPayloads(s: Scene, a: seq<Element>, b: seq<Element>, q: Pass)
    requires Resolved(s, a) && Resolved(s, b)
    requires Follows(Start, q, a + b)
    ensures Carries(s, q.records, q.bins)
  {
    var els := a + b;
    FollowsFromStart(q, els);
    forall k | 0 <= k < |q.bins|
      ensures Find(s.root, els[q.bins[k].at].id).Some? && els[q.bins[k].at] == Resolve(s, els[q.bins[k].at].id)
    {
      var at := q.bins[k].at;
      if at < |a| {
        assert els[at] == a[at];
      } else {
        assert els[at] == b[at - |a|];
      }
    }
  }

  /** `kCBTransBBox` carries no payload: stamps that differ only in that bit
      give entries that differ only in the stamps they report. */
  lemma TransBBoxCarriesNothing(e: Element, p: Pass)
    requires Packed(p)
    ensures var withBit := e.(changeBits := e.changeBits | kCBTransBBox);
      var a := ChangeEntry(e, p);
      var b := ChangeEntry(withBit, p);
      && a.bins == b.bins
      && a.records[|p.records|].(bits := withBit.changeBits) == b.records[|p.records|]
  {
  }

  // ---------------------------------------------------------------------------
  // Delivery

  /** `ev` is addressed to client `c`. */
  predicate AddressedTo(ev: Event, c: Client) {
    ev.window == c.window && ev.conn == c.id
  }

  /** `ev` is a send of the scene's current output to one of its
      subscribers; a binary send carries a non-empty frame. */
  ghost predicate Delivers(s: Scene, ev: Event) {
    && (exists c :: c in s.subscribers && AddressedTo(ev, c))
    && (ev.SendJson? ==> ev.json == s.output.json)
    && (ev.SendBinary? ==> ev.data == s.output.binary && |ev.data| > 0)
  }

  /** `SendChangesToSubscribers`: to every subscriber in registry order, the
      structured frame and, when the binary frame is not empty, the binary
      frame right after it. */
  function SendChangesToSubscribers(s: Scene): (evs: seq<Event>)
    ensures TotalBinarySize(s) == 0 ==>
      && |evs| == |s.subscribers|
      && forall i :: 0 <= i < |s.subscribers| ==>
           evs[i] == SendJson(s.subscribers[i].window, s.subscribers[i].id, s.output.json)
    ensures TotalBinarySize(s) != 0 ==>
      && |evs| == 2 * |s.subscribers|
      && forall i :: 0 <= i < |s.subscribers| ==>
           && evs[2 * i] == SendJson(s.subscribers[i].window, s.subscribers[i].id, s.output.json)
           && evs[2 * i + 1] == SendBinary(s.subscribers[i].window, s.subscribers[i].id, s.output.binary)
    ensures forall ev :: ev in evs ==> Delivers(s, ev)
    decreases |s.subscribers|
  {
    if s.subscribers == [] then []
    else
      var c := s.subscribers[0];
      var first := [SendJson(c.window, c.id, s.output.json)]
        + (if TotalBinarySize(s) != 0 then [SendBinary(c.window, c.id, s.output.binary)] else []);
      var tail := s.(subscribers := s.subscribers[1..]);
      var rest := SendChangesToSubscribers(tail);
      assert forall ev :: ev in first ==> AddressedTo(ev, c);
      assert forall d :: d in tail.subscribers ==> d in s.subscribers;
      first + rest
  }
}
