/** The scripted demonstration (`handleDemo` in
    src/components/DemoButton.js): three records handed straight to the
    store at fixed delays, bypassing the gesture. */
module Demo {
  import opened Diagram
  import opened Transfer
  import Store

  /** One scheduled delivery: after `delay` milliseconds, `record` goes to
      `zone`. */
  datatype Scheduled = Scheduled(delay: nat, zone: ZoneId, record: Record)

  /** The three demo records. `iso(d)` and `local(d)` stand for the
      `toISOString` and `toLocaleTimeString` clock readings taken by the
      callback that runs `d` milliseconds after the click. */
  function DemoSchedule(iso: nat -> string, local: nat -> string): (s: seq<Scheduled>)
    ensures |s| == 3
    ensures forall i :: 0 <= i < |s| ==>
      s[i].delay == 1000 * i && s[i].record.dropZone == s[i].zone &&
      s[i].record.payload.timestamp == iso(s[i].delay) && s[i].record.droppedAt == local(s[i].delay)
  {
    [ Scheduled(0, CodeGenerator,
        Record(Payload(1, "Users", ["id (PK)", "username", "email", "created_at"],
                       "er-entity", iso(0)), local(0), "codeGenerator")),
      Scheduled(1000, Documentation,
        Record(Payload(2, "Orders", ["id (PK)", "user_id (FK)", "total", "status"],
                       "er-entity", iso(1000)), local(1000), "documentation")),
      Scheduled(2000, QueryBuilder,
        Record(Payload(3, "Products", ["id (PK)", "name", "price", "category"],
                       "er-entity", iso(2000)), local(2000), "queryBuilder")) ]
  }

  /** The schedule is three deliveries at 0, 1000 and 2000 ms to the code
      generator, documentation and query builder zones, in that order. */
  lemma ScheduleShape(iso: nat -> string, local: nat -> string)
    ensures var s := DemoSchedule(iso, local);
      && |s| == 3
      && s[0].delay == 0 && s[1].delay == 1000 && s[2].delay == 2000
      && s[0].zone == CodeGenerator && s[1].zone == Documentation && s[2].zone == QueryBuilder
      && forall i, j :: 0 <= i < j < |s| ==> s[i].delay < s[j].delay && s[i].zone != s[j].zone
  {
  }

  /** Each record names the zone it is delivered to, carries the entity
      tag, and is the entity payload of sample entity i+1, with the clock
      readings of its own callback. */
  lemma RecordsMatchSamples(iso: nat -> string, local: nat -> string)
    ensures var s := DemoSchedule(iso, local);
      forall i :: 0 <= i < |s| ==>
        && s[i].record.dropZone == s[i].zone
        && s[i].record.payload.kind == EntityTag
        && s[i].record.payload.entityId == SampleEntities()[i].id
        && s[i].record.payload.name == SampleEntities()[i].name
        && s[i].record.payload.fields == SampleEntities()[i].fields
        && s[i].record.payload.timestamp == iso(s[i].delay)
        && s[i].record.droppedAt == local(s[i].delay)
  {
  }

  /** The scheduled deliveries applied to the store in order. */
  function RunSchedule(s: Store.Store, sched: seq<Scheduled>): Store.Store
    requires forall i :: 0 <= i < |sched| ==> sched[i].zone in s
    decreases |sched|
  {
    if |sched| == 0 then s
    else
      var t := Store.HandleDrop(s, sched[0].zone, sched[0].record);
      RunSchedule(t, sched[1..])
  }

  /** After the whole demo, starting from the initial store, each zone holds
      exactly its one demo record: Users, Orders and Products respectively. */
  lemma DemoFillsEachZoneOnce(iso: nat -> string, local: nat -> string)
    ensures var sched := DemoSchedule(iso, local);
      var t := RunSchedule(Store.InitialStore(), sched);
      && Store.WellFormed(t)
      && t[CodeGenerator] == [sched[0].record]
      && t[Documentation] == [sched[1].record]
      && t[QueryBuilder] == [sched[2].record]
      && t[CodeGenerator][0].payload.name == "Users"
      && t[Documentation][0].payload.name == "Orders"
      && t[QueryBuilder][0].payload.name == "Products"
  {
    var sched := DemoSchedule(iso, local);
    var s0 := Store.InitialStore();
    var s1 := Store.HandleDrop(s0, sched[0].zone, sched[0].record);
    var s2 := Store.HandleDrop(s1, sched[1].zone, sched[1].record);
    var s3 := Store.HandleDrop(s2, sched[2].zone, sched[2].record);
    assert RunSchedule(s0, sched) == RunSchedule(s1, sched[1..]);
    assert RunSchedule(s1, sched[1..]) == RunSchedule(s2, sched[2..]);
    assert RunSchedule(s2, sched[2..]) == RunSchedule(s3, sched[3..]);
    assert sched[3..] == [];
  }
}
