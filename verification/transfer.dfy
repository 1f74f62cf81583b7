/** What travels from the canvas to a drop zone: the drag payload, the
    record a zone stores, and the names of the three zones. */
module Transfer {

  /** The discriminator every entity transfer carries (`type: 'er-entity'`). */
  const EntityTag: string := "er-entity"

  /** A drop zone's identifier, as passed in the `zone` property. */
  type ZoneId = string

  const CodeGenerator: ZoneId := "codeGenerator"
  const Documentation: ZoneId := "documentation"
  const QueryBuilder: ZoneId := "queryBuilder"

  /** The three zones the application lays out. */
  const KnownZones: set<ZoneId> := {CodeGenerator, Documentation, QueryBuilder}

  /** The drag data built on press. `kind` is the `type` field; `timestamp`
      is an opaque ISO time string supplied by the environment. */
  datatype Payload = Payload(
    entityId: int,
    name: string,
    fields: seq<string>,
    kind: string,
    timestamp: string)

  /** A payload as a zone stores it: every payload field, plus the local
      drop time and the receiving zone. */
  datatype Record = Record(payload: Payload, droppedAt: string, dropZone: ZoneId)
}
