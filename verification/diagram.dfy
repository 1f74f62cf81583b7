/** The fixed ER diagram of the canvas component: its entities, hit-testing
    and hover tracking (src/components/CanvasER.js). */
module Diagram {
  import opened Common

  /** One table of the diagram: an axis-aligned box with a label, its field
      labels and a 24-bit fill colour. */
  datatype Entity = Entity(
    id: int,
    name: string,
    x: int,
    y: int,
    width: int,
    height: int,
    fields: seq<string>,
    color: nat)

  /** The four sample tables, in the order the canvas keeps them. */
  function SampleEntities(): (s: seq<Entity>)
    ensures |s| == 4
    ensures forall i :: 0 <= i < |s| ==>
      s[i].id == i + 1 && s[i].width == 120 && s[i].height == 100 && |s[i].fields| == 4 &&
      s[i].fields[0] == "id (PK)" && s[i].color < 0x1000000
  {
    [ Entity(1, "Users", 50, 50, 120, 100,
             ["id (PK)", "username", "email", "created_at"], 0x4CAF50),
      Entity(2, "Orders", 250, 50, 120, 100,
             ["id (PK)", "user_id (FK)", "total", "status"], 0x2196F3),
      Entity(3, "Products", 450, 50, 120, 100,
             ["id (PK)", "name", "price", "category"], 0xFF9800),
      Entity(4, "OrderItems", 150, 200, 120, 100,
             ["id (PK)", "order_id (FK)", "product_id (FK)", "quantity"], 0x9C27B0) ]
  }

  /** The closed box of `e` contains `p`: all four edges are inclusive. */
  predicate Contains(e: Entity, p: Point)
  {
    e.x <= p.x <= e.x + e.width && e.y <= p.y <= e.y + e.height
  }

  /** `Array.prototype.find` over the entity list: the first entity, in list
      order, whose box contains the canvas-local point `p`. */
  function DetectEntityAt(entities: seq<Entity>, p: Point): (r: Option<Entity>)
    ensures r.Some? ==> Contains(r.value, p)
    ensures r.Some? ==>
      exists i :: 0 <= i < |entities| && entities[i] == r.value &&
        forall j :: 0 <= j < i ==> !Contains(entities[j], p)
    ensures r.None? <==> forall i :: 0 <= i < |entities| ==> !Contains(entities[i], p)
  {
    if |entities| == 0 then None
    else if Contains(entities[0], p) then Some(entities[0])
    else
      var r := DetectEntityAt(entities[1..], p);
      assert forall i :: 1 <= i < |entities| ==> entities[i] == entities[1..][i - 1];
      r
  }

  /** At most one entity of `entities` contains `p`. */
  predicate AtMostOneContains(entities: seq<Entity>, p: Point)
  {
    forall a, b :: a in entities && b in entities && Contains(a, p) && Contains(b, p) ==> a == b
  }

  /** When no two entities share the point, the hit-test finds exactly the
      entity that contains it, whatever the list order. */
  lemma UniqueHit(entities: seq<Entity>, p: Point, e: Entity)
    requires AtMostOneContains(entities, p)
    ensures DetectEntityAt(entities, p) == Some(e) <==> e in entities && Contains(e, p)
  {
    var r := DetectEntityAt(entities, p);
    if e in entities && Contains(e, p) {
      var k :| 0 <= k < |entities| && entities[k] == e;
      assert r.Some?;
    }
  }

  /** The four sample boxes are pairwise disjoint. */
  lemma SampleBoxesDisjoint(p: Point)
    ensures forall i, j :: 0 <= i < j < |SampleEntities()| && Contains(SampleEntities()[i], p) ==>
      !Contains(SampleEntities()[j], p)
  {
  }

  /** So no point lies in two sample entities. */
  lemma SampleAtMostOneContains(p: Point)
    ensures AtMostOneContains(SampleEntities(), p)
  {
    var s := SampleEntities();
    SampleBoxesDisjoint(p);
    forall a, b | a in s && b in s && Contains(a, p) && Contains(b, p)
      ensures a == b
    {
      var i :| 0 <= i < |s| && s[i] == a;
      var j :| 0 <= j < |s| && s[j] == b;
      assert i == j;
    }
  }

  /** Reordering the sample entities (or repeating some of them) never
      changes what the hit-test returns. */
  lemma SampleHitOrderIndependent(entities: seq<Entity>, p: Point)
    requires forall e :: e in entities <==> e in SampleEntities()
    ensures DetectEntityAt(entities, p) == DetectEntityAt(SampleEntities(), p)
  {
    var s := SampleEntities();
    SampleAtMostOneContains(p);
    assert AtMostOneContains(entities, p);
    var r := DetectEntityAt(s, p);
    if r.Some? {
      UniqueHit(s, p, r.value);
      UniqueHit(entities, p, r.value);
    } else {
      var q := DetectEntityAt(entities, p);
      if q.Some? {
        UniqueHit(entities, p, q.value);
        UniqueHit(s, p, q.value);
        assert false;
      }
    }
  }

  /** Pointer events the canvas itself handles for hovering. */
  datatype CanvasEvent = CanvasMove(at: Point) | CanvasLeave

  /** The hovered entity after one canvas event: moving hovers the first
      entity under the pointer, leaving the canvas clears the hover. */
  function Hover(entities: seq<Entity>, ev: CanvasEvent): (h: Option<Entity>)
    ensures ev.CanvasLeave? ==> h.None?
    ensures ev.CanvasMove? ==>
      (h.Some? <==> exists i :: 0 <= i < |entities| && Contains(entities[i], ev.at))
    ensures h.Some? ==> h.value in entities
    ensures ev.CanvasMove? && h.Some? ==>
      Contains(h.value, ev.at) &&
      exists i :: 0 <= i < |entities| && entities[i] == h.value &&
        forall j :: 0 <= j < i ==> !Contains(entities[j], ev.at)
  {
    match ev
    case CanvasMove(p) => DetectEntityAt(entities, p)
    case CanvasLeave => None
  }
}
