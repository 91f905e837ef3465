/** `REveSceneList`: the accept-changes broadcast and the sync tick that
    streams and sends the pending changes of every changed scene.
 */
module SceneLists {
  import opened Wire
  import opened Scenes
  import opened Streaming

  datatype SceneList = SceneList(scenes: seq<Scene>)

  /** `AcceptChanges(on)`: opens (or closes) the window of every scene, in
      list order; nothing else of any scene changes. */
  function AcceptChanges(l: SceneList, on: bool): (r: SceneList)
    ensures |r.scenes| == |l.scenes|
    ensures forall i :: 0 <= i < |l.scenes| ==>
      r.scenes[i] == l.scenes[i].(accepting := r.scenes[i].accepting)
    ensures on ==> forall i :: 0 <= i < |l.scenes| ==>
      (r.scenes[i].accepting <==> l.scenes[i].accepting || HasSubscribers(l.scenes[i]))
    ensures !on ==> forall i :: 0 <= i < |l.scenes| ==> !r.scenes[i].accepting
    decreases |l.scenes|
  {
    if l.scenes == [] then l
    else
      var s := l.scenes[0];
      var head := if on then BeginAcceptingChanges(s) else EndAcceptingChanges(s);
      var rest := AcceptChanges(SceneList(l.scenes[1..]), on);
      SceneList([head] + rest.scenes)
  }

  /** Opening and then closing the windows of an idle list leaves it as it
      was. */
  lemma {:induction false} AcceptRoundTrip(l: SceneList)
    requires forall i :: 0 <= i < |l.scenes| ==> !l.scenes[i].accepting
    ensures AcceptChanges(AcceptChanges(l, true), false) == l
  {
    var r := AcceptChanges(AcceptChanges(l, true), false);
    forall i | 0 <= i < |l.scenes|
      ensures r.scenes[i] == l.scenes[i]
    {
      assert r.scenes[i] == l.scenes[i].(accepting := r.scenes[i].accepting);
    }
  }

  /** Every pending id of every scene names an element of that scene. */
  predicate AllResolve(l: SceneList) {
    forall i :: 0 <= i < |l.scenes| ==> Resolves(l.scenes[i])
  }

  /** One iteration of the tick: a changed scene streams its diff and sends
      it to its subscribers; any other scene is left alone and sends
      nothing. */
  function ProcessScene(s: Scene): (r: (Scene, seq<Event>))
    requires Resolves(s)
    ensures !IsChanged(r.0)
    ensures !IsChanged(s) ==> r.0 == s && r.1 == []
    ensures forall ev :: ev in r.1 ==> Delivers(r.0, ev)
    ensures |r.1| > 0 <==> IsChanged(s) && HasSubscribers(s)
    ensures IsChanged(s) ==> r.0 == StreamRepresentationChanges(s) && r.1 == SendChangesToSubscribers(r.0)
  {
    if IsChanged(s) then
      var streamed := StreamRepresentationChanges(s);
      (streamed, SendChangesToSubscribers(streamed))
    else
      (s, [])
  }

  /** The lists of `xss` one after another. */
  function Flatten<T>(xss: seq<seq<T>>): (r: seq<T>)
    ensures |r| == 0 <==> forall i :: 0 <= i < |xss| ==> |xss[i]| == 0
  {
    if xss == [] then [] else xss[0] + Flatten(xss[1..])
  }

  /** Everything in the flattened list comes from one of the lists. */
  lemma {:induction false} FlattenFrom<T>(xss: seq<seq<T>>, x: T)
    requires x in Flatten(xss)
    ensures exists i :: 0 <= i < |xss| && x in xss[i]
  {
    if x !in xss[0] {
      FlattenFrom(xss[1..], x);
      var i :| 0 <= i < |xss[1..]| && x in xss[1..][i];
      assert x in xss[i + 1];
    }
  }

  /** Everything in one of the lists is in the flattened list. */
  lemma {:induction false} FlattenHas<T>(xss: seq<seq<T>>, i: nat, x: T)
    requires i < |xss| && x in xss[i]
    ensures x in Flatten(xss)
  {
    if i > 0 {
      assert xss[1..][i - 1] == xss[i];
      FlattenHas(xss[1..], i - 1, x);
    }
  }

  /** Flattening works piecewise on a concatenation. */
  lemma {:induction false} FlattenAppend<T>(a: seq<seq<T>>, b: seq<seq<T>>)
    ensures Flatten(a + b) == Flatten(a) + Flatten(b)
  {
    if a == [] {
      assert a + b == b;
    } else {
      assert (a + b)[1..] == a[1..] + b;
      FlattenAppend(a[1..], b);
    }
  }

  /** `f` applied to each of `xs`, in order. */
  function MapSeq<A, B>(xs: seq<A>, f: A --> B): (ys: seq<B>)
    requires forall i :: 0 <= i < |xs| ==> f.requires(xs[i])
    ensures |ys| == |xs|
    ensures forall i :: 0 <= i < |xs| ==> ys[i] == f(xs[i])
  {
    seq(|xs|, i requires 0 <= i < |xs| => f(xs[i]))
  }

  /** Mapping works piecewise on a concatenation. */
  lemma MapAppend<A, B>(a: seq<A>, b: seq<A>, f: A --> B)
    requires forall i :: 0 <= i < |a| ==> f.requires(a[i])
    requires forall i :: 0 <= i < |b| ==> f.requires(b[i])
    ensures forall i :: 0 <= i < |a + b| ==> f.requires((a + b)[i])
    ensures MapSeq(a + b, f) == MapSeq(a, f) + MapSeq(b, f)
  {
    forall i | 0 <= i < |a + b|
      ensures f.requires((a + b)[i])
    {
      if i >= |a| {
        assert (a + b)[i] == b[i - |a|];
      }
    }
  }

  lemma MapOne<A, B>(x: A, f: A --> B)
    requires f.requires(x)
    ensures MapSeq([x], f) == [f(x)]
  {
  }

  lemma FlattenOne<T>(xs: seq<T>)
    ensures Flatten([xs]) == xs
  {
    assert Flatten([xs]) == xs + Flatten([]);
  }

  /** A scene after its iteration of the tick. */
  function Ticked(s: Scene): Scene
    requires Resolves(s)
  {
    ProcessScene(s).0
  }

  /** What a scene sends on its iteration of the tick. */
  function Heard(s: Scene): seq<Event>
    requires Resolves(s)
  {
    ProcessScene(s).1
  }

  /** `ProcessSceneChanges`: the tick, over the scenes in list order. Each
      changed scene is replaced by its streamed form, every other scene is
      left as it was, and afterwards nothing is pending anywhere; every
      event is a send of a changed scene's fresh output to one of its
      subscribers, and a list with nothing pending sends nothing. */
  function ProcessSceneChanges(l: SceneList): (r: (SceneList, seq<Event>))
    requires AllResolve(l)
    ensures |r.0.scenes| == |l.scenes|
    ensures forall i :: 0 <= i < |l.scenes| ==> r.0.scenes[i] == ProcessScene(l.scenes[i]).0
    ensures forall i :: 0 <= i < |l.scenes| ==> !IsChanged(r.0.scenes[i])
    ensures forall ev :: ev in r.1 ==>
      exists i :: 0 <= i < |l.scenes| && IsChanged(l.scenes[i]) && Delivers(r.0.scenes[i], ev)
    ensures (forall i :: 0 <= i < |l.scenes| ==> !IsChanged(l.scenes[i])) ==> r.1 == []
  {
    var scenes := MapSeq(l.scenes, Ticked);
    var sends := MapSeq(l.scenes, Heard);
    forall ev | ev in Flatten(sends)
      ensures exists i :: 0 <= i < |l.scenes| && IsChanged(l.scenes[i]) && Delivers(scenes[i], ev)
    {
      FlattenFrom(sends, ev);
      var i :| 0 <= i < |sends| && ev in sends[i];
      assert IsChanged(l.scenes[i]) && Delivers(scenes[i], ev);
    }
    (SceneList(scenes), Flatten(sends))
  }

  /** A tick over a list with nothing pending changes nothing and sends
      nothing. */
  lemma QuietTick(l: SceneList)
    requires AllResolve(l)
    requires forall i :: 0 <= i < |l.scenes| ==> !IsChanged(l.scenes[i])
    ensures ProcessSceneChanges(l) == (l, [])
  {
    var r := ProcessSceneChanges(l).0;
    assert r.scenes == l.scenes;
  }

  /** A second tick right after the first is silent and changes nothing. */
  lemma SecondTickIsSilent(l: SceneList)
    requires AllResolve(l)
    ensures var first := ProcessSceneChanges(l).0;
      ProcessSceneChanges(first) == (first, [])
  {
    var first := ProcessSceneChanges(l).0;
    forall i | 0 <= i < |first.scenes|
      ensures Resolves(first.scenes[i])
    {
      QuietResolves(first.scenes[i]);
    }
    QuietTick(first);
  }

  /** A changed scene with subscribers is heard from on a tick. */
  lemma ChangedSceneIsSent(l: SceneList, i: nat)
    requires AllResolve(l)
    requires i < |l.scenes| && IsChanged(l.scenes[i]) && HasSubscribers(l.scenes[i])
    ensures exists ev :: ev in ProcessSceneChanges(l).1 && Delivers(ProcessSceneChanges(l).0.scenes[i], ev)
  {
    var sends := MapSeq(l.scenes, Heard);
    TickEvents(l);
    var ev := sends[i][0];
    FlattenHas(sends, i, ev);
  }

  /** The tick's scenes, seen through the per-scene map. */
  lemma TickScenes(l: SceneList)
    requires AllResolve(l)
    ensures ProcessSceneChanges(l).0.scenes == MapSeq(l.scenes, Ticked)
  {
  }

  /** The tick's events, seen through the per-scene map. */
  lemma TickEvents(l: SceneList)
    requires AllResolve(l)
    ensures ProcessSceneChanges(l).1 == Flatten(MapSeq(l.scenes, Heard))
  {
  }

  /** Two lists whose pending ids resolve make one such list. */
  lemma AppendResolves(a: SceneList, b: SceneList)
    requires AllResolve(a) && AllResolve(b)
    ensures AllResolve(SceneList(a.scenes + b.scenes))
  {
    var l := SceneList(a.scenes + b.scenes);
    forall i | 0 <= i < |l.scenes|
      ensures Resolves(l.scenes[i])
    {
      if i >= |a.scenes| {
        assert l.scenes[i] == b.scenes[i - |a.scenes|];
      }
    }
  }

  /** The tick visits the scenes in list order: over two lists one after
      the other, it sends what the first list's tick sends and then what
      the second's does. */
  lemma TickSplits(a: SceneList, b: SceneList)
    requires AllResolve(a) && AllResolve(b)
    ensures AllResolve(SceneList(a.scenes + b.scenes))
    ensures ProcessSceneChanges(SceneList(a.scenes + b.scenes)).1
      == ProcessSceneChanges(a).1 + ProcessSceneChanges(b).1
  {
    AppendResolves(a, b);
    MapAppend(a.scenes, b.scenes, Heard);
    TickEvents(a);
    TickEvents(b);
    TickEvents(SceneList(a.scenes + b.scenes));
    FlattenAppend(MapSeq(a.scenes, Heard), MapSeq(b.scenes, Heard));
  }

  /** Over two lists one after the other, the tick leaves the scenes as the
      two lists' ticks do, in the same order. */
  lemma TickScenesSplit(a: SceneList, b: SceneList)
    requires AllResolve(a) && AllResolve(b)
    ensures AllResolve(SceneList(a.scenes + b.scenes))
    ensures ProcessSceneChanges(SceneList(a.scenes + b.scenes)).0.scenes
      == ProcessSceneChanges(a).0.scenes + ProcessSceneChanges(b).0.scenes
  {
    AppendResolves(a, b);
    MapAppend(a.scenes, b.scenes, Ticked);
    TickScenes(a);
    TickScenes(b);
    TickScenes(SceneList(a.scenes + b.scenes));
  }

  /** A tick over one scene is that scene's iteration. */
  lemma TickOfOne(s: Scene)
    requires Resolves(s)
    ensures ProcessSceneChanges(SceneList([s])).0.scenes == [Ticked(s)]
    ensures ProcessSceneChanges(SceneList([s])).1 == Heard(s)
  {
    TickScenes(SceneList([s]));
    TickEvents(SceneList([s]));
    MapOne(s, Ticked);
    MapOne(s, Heard);
    FlattenOne(Heard(s));
  }

  /** A changed scene's iteration sends its fresh structured frame to every
      subscriber, and its binary frame too when that is not empty. */
  lemma SubscriberHears(s: Scene, j: nat)
    requires Resolves(s) && IsChanged(s) && j < |s.subscribers|
    ensures var out := Ticked(s).output;
      var c := s.subscribers[j];
      && SendJson(c.window, c.id, out.json) in Heard(s)
      && (|out.binary| != 0 ==> SendBinary(c.window, c.id, out.binary) in Heard(s))
  {
    var t := Ticked(s);
    assert t.subscribers == s.subscribers && Heard(s) == SendChangesToSubscribers(t);
    SubscriberIsSent(t, j);
  }

  /** Every subscriber of a scene is sent its structured frame, and its
      binary frame too when that is not empty. */
  lemma SubscriberIsSent(t: Scene, j: nat)
    requires j < |t.subscribers|
    ensures var c := t.subscribers[j];
      var evs := SendChangesToSubscribers(t);
      && SendJson(c.window, c.id, t.output.json) in evs
      && (|t.output.binary| != 0 ==> SendBinary(c.window, c.id, t.output.binary) in evs)
  {
    var evs := SendChangesToSubscribers(t);
    if TotalBinarySize(t) == 0 {
      assert evs[j] in evs;
    } else {
      assert evs[2 * j] in evs && evs[2 * j + 1] in evs;
    }
  }

  /** Whatever a scene sends on its iteration is sent on the tick. */
  lemma HeardOnTick(l: SceneList, i: nat)
    requires AllResolve(l) && i < |l.scenes|
    ensures forall ev :: ev in Heard(l.scenes[i]) ==> ev in ProcessSceneChanges(l).1
  {
    TickEvents(l);
    forall ev | ev in Heard(l.scenes[i])
      ensures ev in ProcessSceneChanges(l).1
    {
      FlattenHas(MapSeq(l.scenes, Heard), i, ev);
    }
  }

  /** On a tick, every subscriber of a changed scene is sent that scene's
      fresh structured frame, and its binary frame too when that is not
      empty. */
  lemma EverySubscriberHears(l: SceneList, i: nat, j: nat)
    requires AllResolve(l)
    requires i < |l.scenes| && IsChanged(l.scenes[i]) && j < |l.scenes[i].subscribers|
    ensures var r := ProcessSceneChanges(l);
      var out := r.0.scenes[i].output;
      var c := l.scenes[i].subscribers[j];
      && SendJson(c.window, c.id, out.json) in r.1
      && (|out.binary| != 0 ==> SendBinary(c.window, c.id, out.binary) in r.1)
  {
    var s := l.scenes[i];
    var out := Ticked(s).output;
    var c := s.subscribers[j];
    SubscriberHears(s, j);
    HeardOnTick(l, i);
  }
}
