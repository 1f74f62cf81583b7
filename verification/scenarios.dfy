/** The pieces wired together as the application wires them: a gesture's
    deliveries reach a zone, the zone validates them, the store appends. */
module Scenarios {
  import opened Common
  import opened Diagram
  import opened Transfer
  import opened DragGesture
  import DropZone
  import Store
  import Demo

  /** A zone receiving a payload through `entityDrop` and passing the record
      it builds to the store: a tagged payload is appended to that zone's
      list, anything else leaves the store as it was. */
  function ReceiveEntityDrop(s: Store.Store, zone: ZoneId, p: Payload, now: string): (t: Store.Store)
    requires zone in s
    ensures p.kind == EntityTag ==> t.Keys == s.Keys && t[zone] == s[zone] + [Record(p, now, zone)]
    ensures p.kind != EntityTag ==> t == s
    ensures forall z :: z in s && z != zone ==> t[z] == s[z]
  {
    match DropZone.HandleEntityDrop(p, zone, now)
    case Some(r) => Store.HandleDrop(s, zone, r)
    case None => s
  }

  /** Every delivery of a gesture whose payload carries the entity tag, by
      either channel, passes the zone's tag check and becomes a record of that
      payload for the receiving zone. */
  lemma GestureDeliveriesAccepted(g: Gesture, evs: seq<Event>, dropTime: string)
    requires g.payload.kind == EntityTag
    requires forall i :: 0 <= i < |g.deliveries| ==> g.deliveries[i].payload == g.payload
    ensures var h := Run(g, evs);
      forall i :: 0 <= i < |h.deliveries| ==>
        DropZone.HandleEntityDrop(h.deliveries[i].payload, h.deliveries[i].zone, dropTime)
          == Some(Record(g.payload, dropTime, h.deliveries[i].zone))
  {
    RunInvariant(g, evs);
    var h := Run(g, evs);
    forall i | 0 <= i < |g.deliveries|
      ensures h.deliveries[i] == g.deliveries[i]
    {
      assert h.deliveries[..|g.deliveries|][i] == h.deliveries[i];
    }
  }

  /** When the payload written to the native transfer decodes back to itself,
      a native drop gives the zone the same record as the fallback event. */
  lemma NativeAndFallbackAgree(p: Payload, encoded: string, decode: string -> Option<Payload>,
                               zone: ZoneId, now: string)
    requires p.kind == EntityTag && encoded != "" && decode(encoded) == Some(p)
    ensures DropZone.HandleDrop(encoded, encoded, decode, zone, now).Accepted?
    ensures Some(DropZone.HandleDrop(encoded, encoded, decode, zone, now).record)
      == DropZone.HandleEntityDrop(p, zone, now)
  {
    DropZone.NativeTransferAccepted(encoded, p, decode, zone, now);
  }

  /** Pointer moves and the reveal timer, while the flag is clear, keep the
      gesture listening, undragged, attached as it was and without new
      deliveries; once any of them has happened to a listening gesture the
      affordance is visible. */
  lemma {:induction false} MovesKeepGesture(g: Gesture, moves: seq<Event>)
    requires !g.dragging
    requires forall i :: 0 <= i < |moves| ==> moves[i].Move? || moves[i].Reveal?
    ensures var h := Run(g, moves);
      && h.listening == g.listening && !h.dragging && h.deliveries == g.deliveries
      && h.payload == g.payload && h.affordance.attached == g.affordance.attached
    ensures g.listening && |moves| > 0 ==> Run(g, moves).affordance.visible
    decreases |moves|
  {
    if |moves| > 0 {
      MovesKeepGesture(Step(g, moves[0]), moves[1..]);
    }
  }

  /** Once `dragend` has taken the affordance out of the document, pointer
      moves and a release over zone `z`, with no native drag, give exactly one
      new delivery, by fallback, of the gesture's payload to `z`, and the
      gesture is finished. */
  lemma FallbackReleaseDeliversOnce(g: Gesture, moves: seq<Event>, z: ZoneId)
    requires g.listening && !g.dragging && !g.affordance.attached
    requires forall i :: 0 <= i < |moves| ==> moves[i].Move? || moves[i].Reveal?
    ensures var h := Run(g, moves + [Up(Some(z))]);
      && h.deliveries == g.deliveries + [Delivery(z, g.payload, Fallback)]
      && !h.listening && !h.affordance.attached
  {
    MovesKeepGesture(g, moves);
    RunAppend(g, moves, [Up(Some(z))]);
    var m := Run(g, moves);
    assert Run(m, [Up(Some(z))]) == Run(Step(m, Up(Some(z))), []);
  }

  /** While the affordance is still in the document, any pointer move or the
      reveal timer puts it under the pointer, and a release over zone `z`
      then delivers nothing: the hit-test finds the affordance, not the zone.
      The gesture is finished all the same. */
  lemma ShownAffordanceBlocksFallback(g: Gesture, moves: seq<Event>, z: ZoneId)
    requires g.listening && !g.dragging && g.affordance.attached
    requires |moves| > 0
    requires forall i :: 0 <= i < |moves| ==> moves[i].Move? || moves[i].Reveal?
    ensures var h := Run(g, moves + [Up(Some(z))]);
      && h.deliveries == g.deliveries
      && !h.listening && !h.affordance.attached
  {
    MovesKeepGesture(g, moves);
    RunAppend(g, moves, [Up(Some(z))]);
    var m := Run(g, moves);
    assert Run(m, [Up(Some(z))]) == Run(Step(m, Up(Some(z))), []);
  }

  /** A press inside the Users table starts a fresh gesture carrying the
      Users payload. */
  lemma PressInUsersStartsGesture(local: Point, client: Point, pressTime: string)
    requires Contains(SampleEntities()[0], local)
    ensures var g := Press(SampleEntities(), local, client, pressTime);
      && g.Some?
      && g.value.payload == PayloadFor(SampleEntities()[0], pressTime)
      && g.value.listening && !g.value.dragging && g.value.deliveries == []
      && g.value.affordance.attached
  {
    assert DetectEntityAt(SampleEntities(), local) == Some(SampleEntities()[0]);
  }

  /** A press inside the Users table, at least one pointer move with no
      native drag, and a release over the code generator zone: nothing is
      delivered, so the initial store stays empty. */
  lemma {:induction false} UsersFallbackDragDeliversNothing(local: Point, client: Point, pressTime: string,
                                                          g: Gesture, moves: seq<Event>)
    requires Contains(SampleEntities()[0], local)
    requires Press(SampleEntities(), local, client, pressTime) == Some(g)
    requires |moves| > 0
    requires forall i :: 0 <= i < |moves| ==> moves[i].Move?
    ensures Run(g, moves + [Up(Some(CodeGenerator))]).deliveries == []
  {
    PressInUsersStartsGesture(local, client, pressTime);
    ShownAffordanceBlocksFallback(g, moves, CodeGenerator);
  }

  /** A zone receiving a native drop and passing the record it builds to the
      store: when the chosen transfer entry decodes to a tagged payload, that
      payload's record is appended to the zone's list; otherwise the store is
      as it was. */
  function ReceiveNativeDrop(s: Store.Store, zone: ZoneId, jsonData: string, textData: string,
                             decode: string -> Option<Payload>, now: string): (t: Store.Store)
    requires zone in s
    ensures var chosen := if jsonData != "" then jsonData else textData;
      chosen != "" && decode(chosen).Some? && decode(chosen).value.kind == EntityTag ==>
        t.Keys == s.Keys && t[zone] == s[zone] + [Record(decode(chosen).value, now, zone)]
    ensures var chosen := if jsonData != "" then jsonData else textData;
      !(chosen != "" && decode(chosen).Some? && decode(chosen).value.kind == EntityTag) ==> t == s
    ensures forall z :: z in s && z != zone ==> t[z] == s[z]
  {
    match DropZone.HandleDrop(jsonData, textData, decode, zone, now)
    case Accepted(r) => Store.HandleDrop(s, zone, r)
    case _ => s
  }

  /** A press inside the Users table and a native drag dropped on the code
      generator zone: one native delivery of the Users payload, and when the
      transfer text decodes back to that payload, the zone of the initial
      store ends up holding exactly the Users record. */
  lemma UsersDraggedToCodeGenerator(local: Point, client: Point, encoded: string,
                                    decode: string -> Option<Payload>,
                                    pressTime: string, dropTime: string)
    requires Contains(SampleEntities()[0], local)
    requires encoded != "" && decode(encoded) == Some(PayloadFor(SampleEntities()[0], pressTime))
    ensures var g := Press(SampleEntities(), local, client, pressTime);
      && g.Some?
      && var h := Run(g.value, [DragStart(true), NativeDrop(CodeGenerator), DragEnd]);
      && h.deliveries == [Delivery(CodeGenerator, g.value.payload, Native)]
      && ReceiveNativeDrop(Store.InitialStore(), CodeGenerator, encoded, encoded, decode, dropTime)[CodeGenerator]
           == [Record(h.deliveries[0].payload, dropTime, CodeGenerator)]
  {
    PressInUsersStartsGesture(local, client, pressTime);
    var g := Press(SampleEntities(), local, client, pressTime).value;
    var g1 := Step(g, DragStart(true));
    var g2 := Step(g1, NativeDrop(CodeGenerator));
    assert Run(g, [DragStart(true), NativeDrop(CodeGenerator), DragEnd]) == Run(g1, [NativeDrop(CodeGenerator), DragEnd]);
    assert Run(g1, [NativeDrop(CodeGenerator), DragEnd]) == Run(g2, [DragEnd]);
  }

  /** The Users record received by the code generator zone of the initial
      store is the only record anywhere afterwards. */
  lemma UsersRecordStored(pressTime: string, dropTime: string)
    ensures var p := PayloadFor(SampleEntities()[0], pressTime);
      var t := ReceiveEntityDrop(Store.InitialStore(), CodeGenerator, p, dropTime);
      && t[CodeGenerator] == [Record(p, dropTime, CodeGenerator)]
      && p.name == "Users" && p.fields == ["id (PK)", "username", "email", "created_at"]
      && t[Documentation] == [] && t[QueryBuilder] == []
  {
  }

  /** A press in the gap between the Users and Orders tables starts nothing. */
  lemma PressInGapStartsNothing(client: Point, now: string)
    ensures Press(SampleEntities(), Point(200, 100), client, now).None?
  {
  }

  /** Every demo record would also pass a zone's tag check unchanged. */
  lemma DemoPassesValidation(iso: nat -> string, local: nat -> string, now: string)
    ensures var s := Demo.DemoSchedule(iso, local);
      forall i :: 0 <= i < |s| ==>
        DropZone.HandleEntityDrop(s[i].record.payload, s[i].zone, now)
          == Some(Record(s[i].record.payload, now, s[i].record.dropZone))
  {
    Demo.RecordsMatchSamples(iso, local);
  }

  /** The demo records carry the same payload a press on the matching sample
      table builds, up to the clock reading. */
  lemma DemoMatchesPressPayload(iso: nat -> string, local: nat -> string)
    ensures var s := Demo.DemoSchedule(iso, local);
      forall i :: 0 <= i < |s| ==>
        s[i].record.payload == PayloadFor(SampleEntities()[i], iso(s[i].delay))
  {
    Demo.RecordsMatchSamples(iso, local);
  }
}
