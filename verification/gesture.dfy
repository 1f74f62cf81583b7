/** The per-press drag gesture of the canvas (`handleMouseDown` in
    src/components/CanvasER.js): a hit on press builds a payload and a hidden
    affordance and attaches two document listeners; native `dragstart` /
    `dragend` toggle one `isDragging` flag; `mousemove` and `mouseup` consult
    that flag. */
module DragGesture {
  import opened Common
  import opened Diagram
  import opened Transfer

  /** The affordance is placed this far left of and above the pointer. */
  const OffsetX: int := 60
  const OffsetY: int := 20

  /** The floating element: whether it is in the document, its position in
      client pixels and whether it is shown. */
  datatype Affordance = Affordance(attached: bool, left: int, top: int, visible: bool)

  /** How a payload reached a zone: the browser's native drop, or the
      `entityDrop` event the gesture dispatches itself on `mouseup`. */
  datatype Channel = Native | Fallback

  datatype Delivery = Delivery(zone: ZoneId, payload: Payload, channel: Channel)

  /** The state one press owns. `dragging` is the `isDragging` flag;
      `listening` says whether the document `mousemove`/`mouseup` listeners
      are attached; `transferWritten` says whether the current native drag
      carries the payload in its data transfer; `deliveries` is everything
      handed to a zone so far, in order. */
  datatype Gesture = Gesture(
    payload: Payload,
    dragging: bool,
    affordance: Affordance,
    listening: bool,
    transferWritten: bool,
    deliveries: seq<Delivery>)

  /** The events a gesture reacts to. `DragStart` and `DragEnd` are the
      native drag events on the affordance (`hasTransfer`: the event carries a
      usable `dataTransfer`); `Move` and `Up` are document pointer events
      (`zoneBelow`: the drop zone the page has under the pointer, if any,
      leaving the affordance aside); `Reveal` is the timer set on press that
      shows the affordance; `NativeDrop` is the browser dropping the native
      drag on a zone. */
  datatype Event =
    | DragStart(hasTransfer: bool)
    | DragEnd
    | Move(client: Point)
    | Up(zoneBelow: Option<ZoneId>)
    | Reveal
    | NativeDrop(zone: ZoneId)

  /** The payload built for a hit entity. */
  function PayloadFor(e: Entity, now: string): (p: Payload)
    ensures p.entityId == e.id && p.name == e.name && p.fields == e.fields
    ensures p.kind == EntityTag && p.timestamp == now
  {
    Payload(e.id, e.name, e.fields, EntityTag, now)
  }

  /** A press at canvas-local point `local` and client point `client`. A miss
      starts nothing; a hit starts a gesture for the first entity under the
      pointer, with a hidden affordance, the flag clear and both listeners
      attached. */
  function Press(entities: seq<Entity>, local: Point, client: Point, now: string): (r: Option<Gesture>)
    ensures r.None? <==> forall i :: 0 <= i < |entities| ==> !Contains(entities[i], local)
    ensures r.Some? ==>
      DetectEntityAt(entities, local).Some? &&
      r.value.payload == PayloadFor(DetectEntityAt(entities, local).value, now)
    ensures r.Some? ==>
      && !r.value.dragging
      && r.value.affordance == Affordance(true, client.x - OffsetX, client.y - OffsetY, false)
      && r.value.listening
      && !r.value.transferWritten
      && r.value.deliveries == []
  {
    match DetectEntityAt(entities, local)
    case None => None
    case Some(e) =>
      Some(Gesture(PayloadFor(e, now), false,
                   Affordance(true, client.x - OffsetX, client.y - OffsetY, false),
                   true, false, []))
  }

  /** What `elementFromPoint(...).closest('.drop-zone')` finds on release.
      The affordance is placed (60, 20) up and left of the pointer and its
      padded label is larger than that, so while it is in the document and
      shown it is the element under the pointer, and no zone is found. */
  function ZoneFound(a: Affordance, zoneBelow: Option<ZoneId>): (found: Option<ZoneId>)
    ensures found.Some? <==> zoneBelow.Some? && !(a.attached && a.visible)
    ensures found.Some? ==> found == zoneBelow
  {
    if a.attached && a.visible then None else zoneBelow
  }

  /** One event applied to a gesture. A native drag can only start from the
      affordance while it is still in the document. Only `dragstart` sets the
      flag and only `dragend` clears it; only `mouseup` detaches the
      listeners; the payload never changes. */
  function Step(g: Gesture, ev: Event): (r: Gesture)
    ensures r.payload == g.payload
    ensures r.dragging && !g.dragging ==> ev.DragStart? && g.affordance.attached
    ensures !r.dragging && g.dragging ==> ev.DragEnd?
    ensures r.listening != g.listening ==> ev.Up? && g.listening && !r.listening
    ensures r.affordance.attached ==> g.affordance.attached
  {
    match ev
    case DragStart(hasTransfer) =>
      if !g.affordance.attached then g
      else
        g.(dragging := true, affordance := g.affordance.(visible := true),
           transferWritten := hasTransfer)
    case DragEnd =>
      g.(dragging := false, affordance := g.affordance.(attached := false))
    case Move(c) =>
      if g.listening && !g.dragging then
        g.(affordance := Affordance(g.affordance.attached, c.x - OffsetX, c.y - OffsetY, true))
      else g
    case Up(zoneBelow) =>
      if !g.listening then g
      else
        var found := ZoneFound(g.affordance, zoneBelow);
        var sent := if !g.dragging && found.Some?
                    then [Delivery(found.value, g.payload, Fallback)] else [];
        g.(affordance := g.affordance.(attached := false), listening := false,
           deliveries := g.deliveries + sent)
    case Reveal =>
      g.(affordance := g.affordance.(visible := true))
    case NativeDrop(z) =>
      if g.dragging && g.transferWritten
      then g.(deliveries := g.deliveries + [Delivery(z, g.payload, Native)])
      else g
  }

  /** A sequence of events applied in order. The payload is fixed for the
      whole gesture, and once the listeners or the affordance are gone they
      stay gone. */
  function Run(g: Gesture, evs: seq<Event>): (r: Gesture)
    ensures r.payload == g.payload
    ensures !g.listening ==> !r.listening
    ensures !g.affordance.attached ==> !r.affordance.attached
    decreases |evs|
  {
    if |evs| == 0 then g else Run(Step(g, evs[0]), evs[1..])
  }

  /** Running two event lists one after the other is running their
      concatenation. */
  lemma {:induction false} RunAppend(g: Gesture, a: seq<Event>, b: seq<Event>)
    ensures Run(g, a + b) == Run(Run(g, a), b)
    decreases |a|
  {
    if |a| > 0 {
      assert (a + b)[0] == a[0];
      assert (a + b)[1..] == a[1..] + b;
      RunAppend(Step(g, a[0]), a[1..], b);
    } else {
      assert a + b == b;
    }
  }

  /** `dragstart` on the affordance sets the flag and shows it (a detached
      affordance cannot be dragged); `dragend` clears the flag and takes the
      affordance out of the document. */
  lemma DragFlag(g: Gesture, t: bool)
    ensures g.affordance.attached ==>
      Step(g, DragStart(t)).dragging && Step(g, DragStart(t)).affordance.visible
    ensures !g.affordance.attached ==> Step(g, DragStart(t)) == g
    ensures !Step(g, DragEnd).dragging && !Step(g, DragEnd).affordance.attached
    ensures Step(g, DragStart(t)).deliveries == g.deliveries == Step(g, DragEnd).deliveries
  {
  }

  /** `mousemove` moves the affordance to (clientX-60, clientY-20) and shows
      it only while the flag is clear; otherwise nothing changes. */
  lemma MoveFollowsPointer(g: Gesture, c: Point)
    ensures g.listening && !g.dragging ==>
      var a := Step(g, Move(c)).affordance;
      a.left == c.x - 60 && a.top == c.y - 20 && a.visible && a.attached == g.affordance.attached
    ensures g.dragging || !g.listening ==> Step(g, Move(c)) == g
    ensures Step(g, Move(c)).deliveries == g.deliveries
  {
  }

  /** `mouseup` sends the fallback delivery exactly when the flag is clear,
      a zone lies under the pointer and the affordance is not shown in the
      document over it; it always detaches the affordance and both
      listeners. */
  lemma UpDeliversAndCleansUp(g: Gesture, below: Option<ZoneId>)
    requires g.listening
    ensures var h := Step(g, Up(below));
      var shown := g.affordance.attached && g.affordance.visible;
      && !h.affordance.attached
      && !h.listening
      && (|h.deliveries| == |g.deliveries| + 1 <==> !g.dragging && below.Some? && !shown)
      && (!g.dragging && below.Some? && !shown ==>
            h.deliveries == g.deliveries + [Delivery(below.value, g.payload, Fallback)])
      && (g.dragging || below.None? || shown ==> h.deliveries == g.deliveries)
  {
  }

  /** Once the listeners are gone, pointer moves and releases do nothing. */
  lemma {:induction false} DetachedIgnoresPointer(g: Gesture, evs: seq<Event>)
    requires !g.listening
    requires forall i :: 0 <= i < |evs| ==> evs[i].Move? || evs[i].Up?
    ensures Run(g, evs) == g
    decreases |evs|
  {
    if |evs| > 0 {
      assert Step(g, evs[0]) == g;
      DetachedIgnoresPointer(g, evs[1..]);
    }
  }

  /** Number of fallback deliveries in a list. */
  function FallbackCount(ds: seq<Delivery>): nat
  {
    if |ds| == 0 then 0
    else (if ds[|ds| - 1].channel == Fallback then 1 else 0) + FallbackCount(ds[..|ds| - 1])
  }

  lemma {:induction false} FallbackCountAppend(ds: seq<Delivery>, es: seq<Delivery>)
    ensures FallbackCount(ds + es) == FallbackCount(ds) + FallbackCount(es)
    decreases |es|
  {
    if |es| == 0 {
      assert ds + es == ds;
    } else {
      var ini := es[..|es| - 1];
      assert (ds + es)[..|ds + es| - 1] == ds + ini;
      FallbackCountAppend(ds, ini);
    }
  }

  /** One event adds at most one delivery, of the gesture's own payload,
      after the earlier ones; it never re-attaches the listeners; and it adds
      a fallback delivery only in the step that detaches them. */
  lemma StepInvariant(g: Gesture, ev: Event)
    ensures var h := Step(g, ev);
      && h.payload == g.payload
      && |g.deliveries| <= |h.deliveries| <= |g.deliveries| + 1
      && h.deliveries[..|g.deliveries|] == g.deliveries
      && (forall i :: |g.deliveries| <= i < |h.deliveries| ==> h.deliveries[i].payload == g.payload)
      && (h.listening ==> g.listening)
      && FallbackCount(h.deliveries)
           <= FallbackCount(g.deliveries) + (if g.listening && !h.listening then 1 else 0)
  {
    var h := Step(g, ev);
    var added := h.deliveries[|g.deliveries|..];
    assert h.deliveries == g.deliveries + added;
    FallbackCountAppend(g.deliveries, added);
    if |added| == 1 {
      assert FallbackCount(added) == FallbackCount([]) + (if added[0].channel == Fallback then 1 else 0) by {
        assert added[..0] == [];
      }
    }
  }

  /** Any run keeps the payload and every earlier delivery, only ever
      delivers that payload, and sends at most one fallback delivery while the
      listeners are attached and none after. */
  lemma {:induction false} RunInvariant(g: Gesture, evs: seq<Event>)
    ensures var h := Run(g, evs);
      && h.payload == g.payload
      && |g.deliveries| <= |h.deliveries|
      && h.deliveries[..|g.deliveries|] == g.deliveries
      && (forall i :: |g.deliveries| <= i < |h.deliveries| ==> h.deliveries[i].payload == g.payload)
      && FallbackCount(h.deliveries) <= FallbackCount(g.deliveries) + (if g.listening then 1 else 0)
    decreases |evs|
  {
    if |evs| > 0 {
      var g1 := Step(g, evs[0]);
      StepInvariant(g, evs[0]);
      RunInvariant(g1, evs[1..]);
      var h := Run(g1, evs[1..]);
      assert h == Run(g, evs);
      assert h.deliveries[..|g.deliveries|] == h.deliveries[..|g1.deliveries|][..|g.deliveries|];
    } else {
      assert Run(g, evs).deliveries[..|g.deliveries|] == g.deliveries;
    }
  }

  /** Every payload a gesture started by a press ever delivers is the entity
      payload built on press, so it carries the entity tag. */
  lemma PressedRunDeliversTagged(entities: seq<Entity>, local: Point, client: Point, now: string,
                                 evs: seq<Event>)
    requires exists i :: 0 <= i < |entities| && Contains(entities[i], local)
    ensures var g := Press(entities, local, client, now).value;
      var h := Run(g, evs);
      && FallbackCount(h.deliveries) <= 1
      && forall i :: 0 <= i < |h.deliveries| ==>
           h.deliveries[i].payload == g.payload && h.deliveries[i].payload.kind == EntityTag
  {
    var g := Press(entities, local, client, now).value;
    RunInvariant(g, evs);
  }

  /** The flag does not rule out a second delivery: a native drop followed by
      `dragend` clears the flag and takes the affordance out of the document,
      so a later `mouseup` over the same zone finds the zone and sends the
      fallback delivery as well. */
  lemma DoubleDeliveryTrace(g: Gesture, z: ZoneId)
    requires g.listening && g.affordance.attached
    ensures var h := Run(g, [DragStart(true), NativeDrop(z), DragEnd, Up(Some(z))]);
      h.deliveries == g.deliveries + [Delivery(z, g.payload, Native), Delivery(z, g.payload, Fallback)]
  {
    var evs := [DragStart(true), NativeDrop(z), DragEnd, Up(Some(z))];
    var g1 := Step(g, evs[0]);
    var g2 := Step(g1, evs[1]);
    var g3 := Step(g2, evs[2]);
    var g4 := Step(g3, evs[3]);
    assert Run(g, evs) == Run(g1, evs[1..]);
    assert Run(g1, evs[1..]) == Run(g2, evs[2..]);
    assert Run(g2, evs[2..]) == Run(g3, evs[3..]);
    assert Run(g3, evs[3..]) == Run(g4, evs[4..]);
    assert evs[4..] == [];
  }
}
