/**
 The Transform component: a local position, rotation and scale plus the parent/child
 links of the entity hierarchy. The hierarchy is a map from entity id to that entity's
 Transform; an id missing from the map is an entity whose Transform is gone (torn down),
 which the source sees as `GetComponent('Transform')` returning null.
 */
module Transform {
  import opened Wrappers
  import opened Seqs

  datatype TransformData = TransformData(
    x: real, y: real, rotation: real, scaleX: real, scaleY: real,
    parent: Option<nat>, children: seq<nat>)

  type Hierarchy = map<nat, TransformData>

  datatype Point = Point(x: real, y: real)

  /**
   A new Transform: position and rotation default to 0, scale to 1, no parent and no
   children. `None` is an option the caller left out.
   */
  function New(x: Option<real>, y: Option<real>, rotation: Option<real>,
               scaleX: Option<real>, scaleY: Option<real>): (t: TransformData)
    ensures t.parent == None && t.children == []
    ensures x == None ==> t.x == 0.0
    ensures y == None ==> t.y == 0.0
    ensures rotation == None ==> t.rotation == 0.0
    ensures scaleX == None ==> t.scaleX == 1.0
    ensures scaleY == None ==> t.scaleY == 1.0
    ensures x.Some? ==> t.x == x.value
    ensures y.Some? ==> t.y == y.value
    ensures rotation.Some? ==> t.rotation == rotation.value
    ensures scaleX.Some? ==> t.scaleX == scaleX.value
    ensures scaleY.Some? ==> t.scaleY == scaleY.value
  {
    TransformData(x.GetOr(0.0), y.GetOr(0.0), rotation.GetOr(0.0),
                  scaleX.GetOr(1.0), scaleY.GetOr(1.0), None, [])
  }

  /**
   The world position with a recursion budget. The source recurses through the parents
   without a bound; `fuel` only matters for a cyclic hierarchy, where the source would
   not terminate.
   */
  function WorldPosFuel(h: Hierarchy, id: nat, fuel: nat): Point
    requires id in h
    decreases fuel
  {
    var t := h[id];
    if t.parent.Some? && t.parent.value in h && fuel > 0 then
      var p := WorldPosFuel(h, t.parent.value, fuel - 1);
      Point(p.x + t.x, p.y + t.y)
    else Point(t.x, t.y)
  }

  /** `worldX` / `worldY`: the local position plus the world position of the parent. */
  function WorldPos(h: Hierarchy, id: nat): Point
    requires id in h
  {
    WorldPosFuel(h, id, |h|)
  }

  /**
   A rank for every Transform that strictly decreases from child to live parent: the
   hierarchy has no cycle. Ranks are below the number of Transforms.
   */
  ghost predicate Ranked(h: Hierarchy, rank: map<nat, nat>) {
    forall id :: id in h ==>
      id in rank && rank[id] < |h| &&
      (h[id].parent.Some? && h[id].parent.value in h ==>
         h[id].parent.value in rank && rank[h[id].parent.value] < rank[id])
  }

  lemma {:induction false} FuelIrrelevant(h: Hierarchy, rank: map<nat, nat>, id: nat, f1: nat, f2: nat)
    requires Ranked(h, rank) && id in h
    requires f1 > rank[id] && f2 > rank[id]
    ensures WorldPosFuel(h, id, f1) == WorldPosFuel(h, id, f2)
    decreases rank[id]
  {
    var t := h[id];
    if t.parent.Some? && t.parent.value in h {
      FuelIrrelevant(h, rank, t.parent.value, f1 - 1, f2 - 1);
    }
  }

  /** In an acyclic hierarchy a child's world position is its parent's plus its local one. */
  lemma WorldPosOfChild(h: Hierarchy, rank: map<nat, nat>, id: nat)
    requires Ranked(h, rank) && id in h
    requires h[id].parent.Some? && h[id].parent.value in h
    ensures WorldPos(h, id) == Point(WorldPos(h, h[id].parent.value).x + h[id].x,
                                     WorldPos(h, h[id].parent.value).y + h[id].y)
  {
    FuelIrrelevant(h, rank, h[id].parent.value, |h| - 1, |h|);
  }

  /** Without a live parent the world position is the local position. */
  lemma WorldPosOfRoot(h: Hierarchy, id: nat)
    requires id in h
    requires h[id].parent.None? || h[id].parent.value !in h
    ensures WorldPos(h, id) == Point(h[id].x, h[id].y)
  {
  }

  /**
   `SetParent`: leave the old parent's child list (first occurrence) if that parent still
   has a Transform, record the new parent, and join the new parent's list unless already
   there. The new parent may be any id, even one without a Transform.
   */
  function SetParent(h: Hierarchy, child: nat, newParent: Option<nat>): (r: Hierarchy)
    requires child in h
    ensures r.Keys == h.Keys
    ensures r[child].parent == newParent
    ensures newParent.Some? && newParent.value in h ==> child in r[newParent.value].children
    ensures forall id :: id in h ==>
      r[id].x == h[id].x && r[id].y == h[id].y && r[id].rotation == h[id].rotation &&
      r[id].scaleX == h[id].scaleX && r[id].scaleY == h[id].scaleY
    ensures forall id :: id in h && id != child ==> r[id].parent == h[id].parent
    ensures forall id :: id in h && Some(id) != h[child].parent && Some(id) != newParent ==>
      r[id].children == h[id].children
  {
    Link(Unlink(h, child), child, newParent)
  }

  /** The first step of `SetParent`: the child leaves its old parent's list, if that parent has a Transform. */
  function Unlink(h: Hierarchy, child: nat): (r: Hierarchy)
    requires child in h
    ensures r.Keys == h.Keys
    ensures forall id :: id in h ==>
      r[id].x == h[id].x && r[id].y == h[id].y && r[id].rotation == h[id].rotation &&
      r[id].scaleX == h[id].scaleX && r[id].scaleY == h[id].scaleY && r[id].parent == h[id].parent
    ensures forall id :: id in h && Some(id) != h[child].parent ==> r[id].children == h[id].children
    ensures forall id :: id in h && Some(id) == h[child].parent ==> r[id].children == RemoveFirst(h[id].children, child)
  {
    var old0 := h[child].parent;
    if old0.Some? && old0.value in h then
      h[old0.value := h[old0.value].(children := RemoveFirst(h[old0.value].children, child))]
    else h
  }

  /** The second step of `SetParent`: record the new parent, and join its list unless already there. */
  function Link(h: Hierarchy, child: nat, newParent: Option<nat>): (r: Hierarchy)
    requires child in h
    ensures r.Keys == h.Keys
    ensures r[child].parent == newParent
    ensures forall id :: id in h ==>
      r[id].x == h[id].x && r[id].y == h[id].y && r[id].rotation == h[id].rotation &&
      r[id].scaleX == h[id].scaleX && r[id].scaleY == h[id].scaleY
    ensures forall id :: id in h && id != child ==> r[id].parent == h[id].parent
    ensures forall id :: id in h && Some(id) != newParent ==> r[id].children == h[id].children
    ensures forall id :: id in h && Some(id) == newParent ==>
      r[id].children == if child in h[id].children then h[id].children else h[id].children + [child]
  {
    var h2 := h[child := h[child].(parent := newParent)];
    if newParent.Some? && newParent.value in h2 && child !in h2[newParent.value].children then
      h2[newParent.value := h2[newParent.value].(children := h2[newParent.value].children + [child])]
    else h2
  }

  /** `AddChild`: the child (if it has a Transform) takes this entity as its parent. */
  function AddChild(h: Hierarchy, self: nat, child: nat): (r: Hierarchy)
    requires self in h
    ensures r.Keys == h.Keys
    ensures child in h ==> r[child].parent == Some(self) && child in r[self].children
    ensures child !in h ==> r == h
  {
    if child in h then SetParent(h, child, Some(self)) else h
  }

  /** `RemoveChild`: only a child whose parent is this entity is detached. */
  function RemoveChild(h: Hierarchy, self: nat, child: nat): (r: Hierarchy)
    ensures r.Keys == h.Keys
    ensures child in h && h[child].parent == Some(self) ==> r[child].parent == None
    ensures !(child in h && h[child].parent == Some(self)) ==> r == h
  {
    if child in h && h[child].parent == Some(self) then SetParent(h, child, None) else h
  }

  /**
   The two directions of the parent/child links agree among live Transforms, and no
   child list repeats an entity.
   */
  ghost predicate Consistent(h: Hierarchy) {
    (forall p, c :: p in h && c in h ==> (c in h[p].children <==> h[c].parent == Some(p))) &&
    (forall p :: p in h ==> NoDup(h[p].children))
  }

  /** Every child list names only Transforms that are still in the hierarchy. */
  ghost predicate Closed(h: Hierarchy) {
    forall p, c :: p in h && c in h[p].children ==> c in h
  }

  /** `SetParent` lists no Transform that was not there before. */
  lemma SetParentClosed(h: Hierarchy, child: nat, newParent: Option<nat>)
    requires Consistent(h) && Closed(h) && child in h
    ensures Closed(SetParent(h, child, newParent))
  {
    var h1 := Unlink(h, child);
    UnlinkClears(h, child);
    var r := SetParent(h, child, newParent);
    forall p, c | p in r && c in r[p].children ensures c in r {
      if c != child {
        assert c in h1[p].children;
        assert c in h[p].children;
      }
    }
  }

  /** A fresh Transform without links, which no one names as parent, keeps the links consistent. */
  lemma AddFresh(h: Hierarchy, id: nat, t: TransformData)
    requires Consistent(h) && Closed(h) && id !in h
    requires t.parent == None && t.children == []
    requires forall c :: c in h ==> h[c].parent != Some(id)
    ensures Consistent(h[id := t]) && Closed(h[id := t])
  {
  }

  /** Dropping a Transform that no list names keeps the links consistent and closed. */
  lemma Drop(h: Hierarchy, id: nat)
    requires Consistent(h) && Closed(h)
    requires forall p :: p in h ==> id !in h[p].children
    ensures Consistent(h - {id}) && Closed(h - {id})
  {
  }

  /** `SetParent` keeps the links consistent; the child leaves the old parent's list. */
  lemma SetParentConsistent(h: Hierarchy, child: nat, newParent: Option<nat>)
    requires Consistent(h) && child in h
    ensures Consistent(SetParent(h, child, newParent))
    ensures forall p :: p in h && Some(p) != newParent ==> child !in SetParent(h, child, newParent)[p].children
  {
    var h1 := Unlink(h, child);
    UnlinkClears(h, child);
    LinkConsistent(h, h1, child, newParent);
  }

  /** After `Unlink` no list holds the child, every list is still free of repeats, and the others stay listed. */
  lemma UnlinkClears(h: Hierarchy, child: nat)
    requires Consistent(h) && child in h
    ensures forall p :: p in h ==>
      NoDup(Unlink(h, child)[p].children) && child !in Unlink(h, child)[p].children &&
      forall c :: c != child ==> (c in Unlink(h, child)[p].children <==> c in h[p].children)
  {
    var h1 := Unlink(h, child);
    forall p | p in h
      ensures NoDup(h1[p].children) && child !in h1[p].children &&
        forall c :: c != child ==> (c in h1[p].children <==> c in h[p].children)
    {
      if Some(p) == h[child].parent {
        RemoveFirstNoDup(h[p].children, child);
      }
    }
  }

  /** `Link` on the unlinked hierarchy restores the agreement of the links, with the new parent. */
  lemma LinkConsistent(h: Hierarchy, h1: Hierarchy, child: nat, newParent: Option<nat>)
    requires Consistent(h) && child in h && h1 == Unlink(h, child)
    requires forall p :: p in h ==>
      NoDup(h1[p].children) && child !in h1[p].children &&
      forall c :: c != child ==> (c in h1[p].children <==> c in h[p].children)
    ensures Consistent(Link(h1, child, newParent))
    ensures forall p :: p in h && Some(p) != newParent ==> child !in Link(h1, child, newParent)[p].children
  {
    var r := Link(h1, child, newParent);
    forall p | p in h ensures NoDup(r[p].children) {
      if Some(p) == newParent {
        NoDupAppend(h1[p].children, child);
      }
    }
  }

  /** Adopting an orphan and letting it go again restores the hierarchy. */
  lemma RemoveChildUndoesAddChild(h: Hierarchy, self: nat, child: nat)
    requires Consistent(h) && self in h && child in h && h[child].parent == None
    ensures RemoveChild(AddChild(h, self, child), self, child) == h
  {
    assert child !in h[self].children;
    var h1 := AddChild(h, self, child);
    assert h1[self].children == h[self].children + [child];
    RemoveFirstAppended(h[self].children, child);
    var h2 := RemoveChild(h1, self, child);
    assert h2[self] == h[self];
    assert h2[child] == h[child];
    assert h2 == h;
  }
}
