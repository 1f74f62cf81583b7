/** A drop zone's acceptance logic (src/components/DropZone.js): the two
    ways a payload arrives, their shared validation, and the zone's labels. */
module DropZone {
  import opened Common
  import opened Transfer

  /** What one native drop comes to. `NoData`, `Malformed` and `WrongKind`
      are the three diagnostics the zone logs instead of accepting. */
  datatype Outcome =
    | Accepted(record: Record)
    | NoData
    | Malformed
    | WrongKind(kind: string)

  /** The custom `entityDrop` event: the payload arrives as-is and is stored
      only if it carries the entity tag, with the drop time and this zone
      added. */
  function HandleEntityDrop(detail: Payload, zone: ZoneId, now: string): (r: Option<Record>)
    ensures r.Some? <==> detail.kind == EntityTag
    ensures r.Some? ==> r.value.payload == detail && r.value.dropZone == zone && r.value.droppedAt == now
  {
    if detail.kind == EntityTag then Some(Record(detail, now, zone)) else None
  }

  /** The native `drop` event. `jsonData` and `textData` are the
      `application/json` and `text/plain` entries (empty when missing);
      `decode` stands for `JSON.parse` followed by reading the fields, `None`
      when it throws. The JSON entry wins whenever it is non-empty. */
  function HandleDrop(jsonData: string, textData: string, decode: string -> Option<Payload>,
                      zone: ZoneId, now: string): (o: Outcome)
    ensures jsonData == "" && textData == "" ==> o == NoData
    ensures o == NoData ==> jsonData == "" && textData == ""
    ensures o == Malformed <==>
      (jsonData != "" && decode(jsonData).None?) || (jsonData == "" && textData != "" && decode(textData).None?)
    ensures o.Accepted? ==>
      o.record.dropZone == zone && o.record.droppedAt == now && o.record.payload.kind == EntityTag &&
      Some(o.record.payload) == decode(if jsonData != "" then jsonData else textData)
    ensures o.WrongKind? ==> o.kind != EntityTag
    ensures var chosen := if jsonData != "" then jsonData else textData;
      o.WrongKind? ==> chosen != "" && decode(chosen).Some? && o.kind == decode(chosen).value.kind
    ensures var chosen := if jsonData != "" then jsonData else textData;
      o.Accepted? <==> chosen != "" && decode(chosen).Some? && decode(chosen).value.kind == EntityTag
  {
    var data :=
      if jsonData != "" then decode(jsonData)
      else if textData != "" then decode(textData)
      else None;
    if jsonData == "" && textData == "" then NoData
    else if data.None? then Malformed
    else if data.value.kind == EntityTag then
      Accepted(Record(data.value, now, zone))
    else WrongKind(data.value.kind)
  }

  /** With a non-empty JSON entry, the plain-text entry is never looked at,
      even when the JSON entry does not decode. */
  lemma JsonEntryPreferred(jsonData: string, t1: string, t2: string,
                           decode: string -> Option<Payload>, zone: ZoneId, now: string)
    requires jsonData != ""
    ensures HandleDrop(jsonData, t1, decode, zone, now) == HandleDrop(jsonData, t2, decode, zone, now)
  {
  }

  /** With an empty JSON entry, the plain-text entry is read exactly as a
      JSON entry would be. */
  lemma TextEntryFallback(textData: string, decode: string -> Option<Payload>, zone: ZoneId, now: string)
    ensures HandleDrop("", textData, decode, zone, now) == HandleDrop(textData, "", decode, zone, now)
  {
  }

  /** Both paths apply the same tag check and build the same record: a
      native drop whose chosen entry decodes to `p` is accepted exactly when
      `entityDrop` with `p` would be, with the same record. */
  lemma PathsAgree(jsonData: string, textData: string, decode: string -> Option<Payload>,
                   zone: ZoneId, now: string)
    requires var chosen := if jsonData != "" then jsonData else textData;
      chosen != "" && decode(chosen).Some?
    ensures var p := decode(if jsonData != "" then jsonData else textData).value;
      var o := HandleDrop(jsonData, textData, decode, zone, now);
      && (o.Accepted? <==> HandleEntityDrop(p, zone, now).Some?)
      && (o.Accepted? ==> HandleEntityDrop(p, zone, now) == Some(o.record))
  {
  }

  /** A payload written under both keys by the same encoder, which `decode`
      reads back, is accepted as that payload. */
  lemma NativeTransferAccepted(encoded: string, p: Payload, decode: string -> Option<Payload>,
                               zone: ZoneId, now: string)
    requires encoded != "" && decode(encoded) == Some(p) && p.kind == EntityTag
    ensures HandleDrop(encoded, encoded, decode, zone, now) == Accepted(Record(p, now, zone))
  {
  }

  /** `fields.join(', ')`. */
  function FormatFieldsList(fields: seq<string>): (s: string)
    ensures |fields| == 0 ==> s == ""
    ensures |fields| == 1 ==> s == fields[0]
  {
    if |fields| == 0 then ""
    else if |fields| == 1 then fields[0]
    else fields[0] + ", " + FormatFieldsList(fields[1..])
  }

  /** Joining two non-empty lists is joining each and putting one separator
      between them; with the singleton case this pins the join down. */
  lemma {:induction false} FormatFieldsListAppend(a: seq<string>, b: seq<string>)
    requires |a| > 0 && |b| > 0
    ensures FormatFieldsList(a + b) == FormatFieldsList(a) + ", " + FormatFieldsList(b)
    decreases |a|
  {
    if |a| == 1 {
      assert (a + b)[1..] == b;
    } else {
      assert (a + b)[1..] == a[1..] + b;
      FormatFieldsListAppend(a[1..], b);
    }
  }

  /** The joined text is as long as the fields plus two characters per gap. */
  function TotalLength(fields: seq<string>): nat
  {
    if |fields| == 0 then 0 else |fields[0]| + TotalLength(fields[1..])
  }

  lemma {:induction false} FormatFieldsListLength(fields: seq<string>)
    requires |fields| > 0
    ensures |FormatFieldsList(fields)| == TotalLength(fields) + 2 * (|fields| - 1)
    decreases |fields|
  {
    if |fields| > 1 {
      FormatFieldsListLength(fields[1..]);
    }
  }

  /** The heading icon of a zone. */
  datatype Icon = Lightning | Books | Magnifier | Package

  /** `getZoneIcon`: total; each known zone has its own icon, every other
      name the default package icon. */
  function ZoneIcon(zone: ZoneId): (i: Icon)
    ensures i == Package <==> zone !in KnownZones
    ensures zone == CodeGenerator ==> i == Lightning
    ensures zone == Documentation ==> i == Books
    ensures zone == QueryBuilder ==> i == Magnifier
  {
    if zone == CodeGenerator then Lightning
    else if zone == Documentation then Books
    else if zone == QueryBuilder then Magnifier
    else Package
  }

  /** `getZoneAction`: total; each known zone has its own label, every other
      name the default "Process". */
  function ZoneAction(zone: ZoneId): (action: string)
    ensures action == "Process" <==> zone !in KnownZones
    ensures zone == CodeGenerator ==> action == "Generate Code"
    ensures zone == Documentation ==> action == "Create Documentation"
    ensures zone == QueryBuilder ==> action == "Build Query"
  {
    if zone == CodeGenerator then "Generate Code"
    else if zone == Documentation then "Create Documentation"
    else if zone == QueryBuilder then "Build Query"
    else "Process"
  }

  /** Distinct known zones never share a label or an icon. */
  lemma KnownZonesDistinguishable(z1: ZoneId, z2: ZoneId)
    requires z1 in KnownZones && z2 in KnownZones && z1 != z2
    ensures ZoneAction(z1) != ZoneAction(z2)
    ensures ZoneIcon(z1) != ZoneIcon(z2)
  {
  }
}
