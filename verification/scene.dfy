/** `REveScene` state: the accepting-changes window, the subscriber registry
    and the three pending-change collections.

    A scene is an immutable record; every operation returns the next
    record. The source's `assert`s become `requires`.
 */
module Scenes {
  import opened Elements
  import opened Wire
  import Packing

  /** `REveClient`: a connection id and the web window it is reached through. */
  datatype Client = Client(id: ConnId, window: WindowId)

  /** `std::unique_ptr<REveClient>`, which may be null. */
  datatype ClientPtr = Null | Owned(client: Client)

  /** The scene's output buffers: `fOutputJson`, `fOutputBinary` and
      `fElsWithBinaryData`. `fTotalBinarySize` is the binary frame's
      length (the streaming paths establish that the two agree). */
  datatype Output = Output(json: Json, binary: seq<Byte>, bins: seq<Packing.Bin>)

  datatype Scene = Scene(
    root: Element,
    commands: seq<Command>,
    accepting: bool,
    subscribers: seq<Client>,
    changed: set<ElementId>,
    added: set<ElementId>,
    removed: seq<ElementId>,
    output: Output)

  function TotalBinarySize(s: Scene): nat {
    |s.output.binary|
  }

  predicate HasSubscribers(s: Scene) {
    |s.subscribers| > 0
  }

  /** Opens the window, but only for a scene somebody listens to; a scene
      already accepting is left as it is. */
  function BeginAcceptingChanges(s: Scene): (r: Scene)
    ensures r.accepting <==> s.accepting || HasSubscribers(s)
    ensures r == s.(accepting := r.accepting)
  {
    if s.accepting then s
    else if HasSubscribers(s) then s.(accepting := true)
    else s
  }

  /** Closes the window; an idle scene is left as it is. */
  function EndAcceptingChanges(s: Scene): (r: Scene)
    ensures !r.accepting
    ensures r == s.(accepting := false)
    ensures !s.accepting ==> r == s
  {
    if !s.accepting then s else s.(accepting := false)
  }

  /** Opening an already open window changes nothing. */
  lemma BeginIsIdempotent(s: Scene)
    ensures BeginAcceptingChanges(BeginAcceptingChanges(s)) == BeginAcceptingChanges(s)
  {
  }

  /** Opening and closing the window returns an idle scene to where it was. */
  lemma WindowRoundTrip(s: Scene)
    requires !s.accepting
    ensures EndAcceptingChanges(BeginAcceptingChanges(s)) == s
  {
  }

  /** With nobody subscribed the window stays shut. */
  lemma NoSubscribersNoWindow(s: Scene)
    requires !s.accepting && !HasSubscribers(s)
    ensures !BeginAcceptingChanges(s).accepting
  {
  }

  // ---------------------------------------------------------------------------
  // Subscriber registry

  /** Appends a (non-null) subscriber; only allowed while idle. */
  function AddSubscriber(s: Scene, sub: ClientPtr): (r: Scene)
    requires sub.Owned? && !s.accepting
    ensures r.subscribers == s.subscribers + [sub.client]
    ensures r == s.(subscribers := r.subscribers)
  {
    s.(subscribers := s.subscribers + [sub.client])
  }

  /** `remove_if` on the client id: the clients without that id, in order. */
  function Without(cs: seq<Client>, id: ConnId): (r: seq<Client>)
    ensures forall c :: c in r <==> c in cs && c.id != id
    ensures |r| <= |cs|
  {
    if cs == [] then []
    else if cs[0].id == id then Without(cs[1..], id)
    else [cs[0]] + Without(cs[1..], id)
  }

  /** Removing keeps relative order: it works piecewise on a concatenation. */
  lemma {:induction false} WithoutAppend(a: seq<Client>, b: seq<Client>, id: ConnId)
    ensures Without(a + b, id) == Without(a, id) + Without(b, id)
  {
    if a == [] {
      assert a + b == b;
    } else {
      assert (a + b)[1..] == a[1..] + b;
      WithoutAppend(a[1..], b, id);
    }
  }

  /** Removing an id nobody has changes nothing. */
  lemma {:induction false} WithoutAbsent(cs: seq<Client>, id: ConnId)
    ensures (forall c :: c in cs ==> c.id != id) ==> Without(cs, id) == cs
  {
    if cs != [] && forall c :: c in cs ==> c.id != id {
      assert forall c :: c in cs[1..] ==> c in cs;
      WithoutAbsent(cs[1..], id);
    }
  }

  /** Removing twice is removing once. */
  lemma {:induction false} WithoutIdempotent(cs: seq<Client>, id: ConnId)
    ensures Without(Without(cs, id), id) == Without(cs, id)
  {
    WithoutAbsent(Without(cs, id), id);
  }

  /** Deletes every subscriber with this id, keeping the others in order;
      only allowed while idle. */
  function RemoveSubscriber(s: Scene, id: ConnId): (r: Scene)
    requires !s.accepting
    ensures r.subscribers == Without(s.subscribers, id)
    ensures forall c :: c in r.subscribers <==> c in s.subscribers && c.id != id
    ensures (forall c :: c in s.subscribers ==> c.id != id) ==> r == s
    ensures r == s.(subscribers := r.subscribers)
  {
    WithoutAbsent(s.subscribers, id);
    s.(subscribers := Without(s.subscribers, id))
  }

  /** Removing a freshly added subscriber undoes the addition. */
  lemma {:induction false} RemoveUndoesAdd(s: Scene, c: Client)
    requires !s.accepting
    requires forall x :: x in s.subscribers ==> x.id != c.id
    ensures RemoveSubscriber(AddSubscriber(s, Owned(c)), c.id) == s
  {
    WithoutAppend(s.subscribers, [c], c.id);
    WithoutAbsent(s.subscribers, c.id);
    assert Without([c], c.id) == [];
  }

  // ---------------------------------------------------------------------------
  // Pending changes

  function SceneElementChanged(s: Scene, id: ElementId): (r: Scene)
    requires s.accepting
    ensures r.changed == s.changed + {id}
    ensures r == s.(changed := r.changed)
  {
    s.(changed := s.changed + {id})
  }

  function SceneElementAdded(s: Scene, id: ElementId): (r: Scene)
    requires s.accepting
    ensures r.added == s.added + {id}
    ensures r == s.(added := r.added)
  {
    s.(added := s.added + {id})
  }

  function SceneElementRemoved(s: Scene, id: ElementId): (r: Scene)
    requires s.accepting
    ensures r.removed == s.removed + [id]
    ensures r == s.(removed := r.removed)
  {
    s.(removed := s.removed + [id])
  }

  /** The changed and added collections are sets: a second report of the
      same element leaves them as the first left them. */
  lemma ReportingTwiceIsReportingOnce(s: Scene, id: ElementId)
    requires s.accepting
    ensures SceneElementChanged(SceneElementChanged(s, id), id) == SceneElementChanged(s, id)
    ensures SceneElementAdded(SceneElementAdded(s, id), id) == SceneElementAdded(s, id)
  {
  }

  /** The removed collection is a list: a second report of the same id is
      kept as a second entry, after the first. */
  lemma RemovingTwiceKeepsBoth(s: Scene, id: ElementId)
    requires s.accepting
    ensures SceneElementRemoved(SceneElementRemoved(s, id), id).removed == s.removed + [id, id]
  {
  }

  /** Something is pending exactly when one of the collections holds an
      entry. */
  predicate IsChanged(s: Scene)
    ensures IsChanged(s) <==> |s.changed| + |s.added| + |s.removed| > 0
  {
    !(s.changed == {} && s.added == {} && s.removed == [])
  }

  /** Every report leaves the scene with something to send. */
  lemma ReportMarksChanged(s: Scene, id: ElementId)
    requires s.accepting
    ensures IsChanged(SceneElementChanged(s, id))
    ensures IsChanged(SceneElementAdded(s, id))
    ensures IsChanged(SceneElementRemoved(s, id))
  {
  }

  /** Every pending changed or added element names an element of the scene's
      tree: the source dereferences these pointers when it streams. */
  predicate Resolves(s: Scene) {
    && (forall id :: id in s.changed ==> Find(s.root, id).Some?)
    && (forall id :: id in s.added ==> Find(s.root, id).Some?)
  }

  /** A scene with nothing pending has nothing to resolve. */
  lemma QuietResolves(s: Scene)
    requires !IsChanged(s)
    ensures Resolves(s)
  {
  }

  function Resolve(s: Scene, id: ElementId): (e: Element)
    requires Find(s.root, id).Some?
    ensures e.id == id
  {
    Find(s.root, id).value
  }
}
