/** The application's per-zone record lists (`droppedItems`, `handleDrop`
    and `clearDropZone` in src/App.js). */
module Store {
  import opened Transfer

  /** Each zone's dropped records, in drop order. */
  type Store = map<ZoneId, seq<Record>>

  /** The three known zones and nothing else. */
  predicate WellFormed(s: Store)
  {
    s.Keys == KnownZones
  }

  /** The initial state: the three zones, each with no records. */
  function InitialStore(): (s: Store)
    ensures WellFormed(s)
    ensures forall z :: z in s ==> s[z] == []
  {
    map[CodeGenerator := [], Documentation := [], QueryBuilder := []]
  }

  /** `handleDrop(zone, data)`: `data` goes at the end of `zone`'s list and
      no other zone changes. The zone must already have a list: spreading a
      missing one throws. */
  function HandleDrop(s: Store, zone: ZoneId, data: Record): (t: Store)
    requires zone in s
    ensures t.Keys == s.Keys
    ensures |t[zone]| == |s[zone]| + 1
    ensures t[zone][..|s[zone]|] == s[zone] && t[zone][|s[zone]|] == data
    ensures forall z :: z in s && z != zone ==> t[z] == s[z]
  {
    s[zone := s[zone] + [data]]
  }

  /** `clearDropZone(zone)`: `zone`'s list becomes empty (created if absent)
      and no other zone changes. */
  function ClearDropZone(s: Store, zone: ZoneId): (t: Store)
    ensures t.Keys == s.Keys + {zone}
    ensures t[zone] == []
    ensures forall z :: z in s && z != zone ==> t[z] == s[z]
  {
    s[zone := []]
  }

  /** Both operations keep the store well formed when given a known zone. */
  lemma OperationsPreserveWellFormed(s: Store, zone: ZoneId, data: Record)
    requires WellFormed(s) && zone in KnownZones
    ensures WellFormed(HandleDrop(s, zone, data))
    ensures WellFormed(ClearDropZone(s, zone))
  {
  }

  /** Clearing twice is clearing once. */
  lemma ClearIdempotent(s: Store, zone: ZoneId)
    ensures ClearDropZone(ClearDropZone(s, zone), zone) == ClearDropZone(s, zone)
  {
  }

  /** A drop after a clear leaves exactly that one record. */
  lemma DropAfterClear(s: Store, zone: ZoneId, data: Record)
    ensures HandleDrop(ClearDropZone(s, zone), zone, data)[zone] == [data]
  {
  }

  /** Drops into different zones commute. */
  lemma DropsCommute(s: Store, z1: ZoneId, z2: ZoneId, d1: Record, d2: Record)
    requires z1 in s && z2 in s && z1 != z2
    ensures HandleDrop(HandleDrop(s, z1, d1), z2, d2) == HandleDrop(HandleDrop(s, z2, d2), z1, d1)
  {
  }
}
