/** Where a dragged object lands. */
module DragOver {
  import opened Options
  import opened Bytes
  import opened Values
  import opened Identifiers
  import opened Sorting
  import opened Order
  import opened OrderRef

  datatype Drag = Above | Into | Below

  datatype DragOver = DragOver(drag: Drag, group: RemoteId, target: RemoteId) {
    function TargetGroup(): RemoteId { if drag.Into? then target else group }
  }

  /** The first place of an item, or the length. */
  function IndexOf(ids: seq<RemoteId>, id: RemoteId): (i: nat)
    ensures i <= |ids|
    ensures forall j :: 0 <= j < i ==> ids[j] != id
    ensures i < |ids| ==> ids[i] == id
    ensures id in ids <==> i < |ids|
  {
    if ids == [] || ids[0] == id then 0 else 1 + IndexOf(ids[1..], id)
  }

  function Previous(ids: seq<RemoteId>, id: RemoteId): Option<RemoteId> {
    var i := IndexOf(ids, id);
    if 0 < i < |ids| then Some(ids[i - 1]) else None
  }

  function Following(ids: seq<RemoteId>, id: RemoteId): Option<RemoteId> {
    var i := IndexOf(ids, id);
    if i + 1 < |ids| then Some(ids[i + 1]) else None
  }

  function Last(ids: seq<RemoteId>): Option<RemoteId> {
    if ids == [] then None else Some(ids[|ids| - 1])
  }

  function SortOf(objects: Table, id: Option<RemoteId>): Option<ByteString> {
    if id.Some? && id.value in objects then Some(objects[id.value].sort) else None
  }

  /** The sort key for the dragged object; `siblings` and `kids` are the groups of and below the target. */
  function NewSort(d: DragOver, objects: Table, siblings: seq<RemoteId>, kids: seq<RemoteId>): (sort: Option<ByteString>)
    ensures sort.Some? <==> d.target in objects
  {
    if d.target !in objects then None
    else
      var sort := objects[d.target].sort;
      match d.drag
      case Into =>
        var last := SortOf(objects, Last(kids));
        Some(if last.Some? then Sorting.After(last.value) else IdBytes(d.target.id))
      case Above =>
        var prev := SortOf(objects, Previous(siblings, d.target));
        Some(if prev.Some? then Midpoint(prev.value, sort) else Sorting.Before(sort))
      case Below =>
        var next := SortOf(objects, Following(siblings, d.target));
        Some(if next.Some? then Midpoint(sort, next.value) else Sorting.After(sort))
  }

  // ----- Listings

  /** The children of a group in order. */
  ghost function Listing(objects: Table, group: RemoteId): seq<RemoteId> {
    IdsOf(Sorted(Members(objects, AsGroup(group))))
  }

  /** The list without an item that occurs at most once. */
  function Except(ids: seq<RemoteId>, id: RemoteId): seq<RemoteId> {
    var i := IndexOf(ids, id);
    if i < |ids| then ids[..i] + ids[i + 1..] else ids
  }

  /** The key is above its left and below its right neighbour at place `p`. */
  predicate FitsAt(objects: Table, ids: seq<RemoteId>, p: nat, k: SortKey)
    requires p <= |ids| && forall id :: id in ids ==> id in objects
  {
    && (p > 0 ==> KeyLess(KeyOf(objects, ids[p - 1]), k))
    && (p < |ids| ==> KeyLess(k, KeyOf(objects, ids[p])))
  }

  lemma ListingIs(objects: Table, group: RemoteId)
    ensures IsListing(Listing(objects, group), objects, group)
    ensures Distinct(Listing(objects, group))
  {
    ListingUnique(objects, group, Listing(objects, group));
    ListingDistinct(objects, group, Listing(objects, group));
  }

  lemma ListingDistinct(objects: Table, group: RemoteId, ids: seq<RemoteId>)
    requires IsListing(ids, objects, group)
    ensures Distinct(ids)
  {
    forall i, j | 0 <= i < j < |ids|
      ensures ids[i] != ids[j]
    {
      KeyLessAsymmetric(KeyOf(objects, ids[i]), KeyOf(objects, ids[j]));
    }
  }

  lemma ExceptIs(ids: seq<RemoteId>, id: RemoteId)
    requires Distinct(ids)
    ensures forall j :: j in Except(ids, id) <==> j in ids && j != id
  {
    var i := IndexOf(ids, id);
    var e := Except(ids, id);
    forall j
      ensures j in e <==> j in ids && j != id
    {
      if j in ids && j != id {
        var n :| 0 <= n < |ids| && ids[n] == j;
        assert e[if n < i then n else n - 1] == j;
      }
    }
  }

  lemma ExceptItem(s: seq<RemoteId>, id: RemoteId, k: nat)
    requires k < |Except(s, id)|
    ensures k < |s| && (k >= IndexOf(s, id) ==> k + 1 < |s|)
    ensures Except(s, id)[k] == if k < IndexOf(s, id) then s[k] else s[k + 1]
  {
  }

  /** Taking an object out takes it out of its group's list and changes no other. */
  lemma ListingRemoved(objects: Table, id: RemoteId, group: RemoteId)
    ensures Listing(objects - {id}, group) == Except(Listing(objects, group), id)
  {
    hide Listing, KeyLess, Except, IsListing;
    var ids := Listing(objects, group);
    ListingIs(objects, group);
    ExceptListing(objects, id, group, ids);
    ListingIsUnique(objects - {id}, group, Except(ids, id));
  }

  lemma ExceptListing(objects: Table, id: RemoteId, group: RemoteId, ids: seq<RemoteId>)
    requires IsListing(ids, objects, group)
    ensures IsListing(Except(ids, id), objects - {id}, group)
  {
    hide KeyLess, Except, IndexOf;
    ListingDistinct(objects, group, ids);
    ExceptIs(ids, id);
    var t, e := objects - {id}, Except(ids, id);
    forall i, j | 0 <= i < j < |e|
      ensures KeyLess(KeyOf(t, e[i]), KeyOf(t, e[j]))
    {
      ExceptItem(ids, id, i);
      ExceptItem(ids, id, j);
      assert e[i] in e && e[j] in e;
    }
  }

  lemma ListingIsUnique(objects: Table, group: RemoteId, ids: seq<RemoteId>)
    ensures IsListing(ids, objects, group) <==> ids == Listing(objects, group)
  {
    ListingUnique(objects, group, ids);
  }

  /** A new object is listed at a place exactly when its key fits there. */
  lemma InsertedExactly(objects: Table, id: RemoteId, e: Entry, p: nat)
    requires id !in objects && p <= |Listing(objects, e.group)|
    ensures forall j :: j in Listing(objects, e.group) ==> j in objects
    ensures var ids := Listing(objects, e.group);
            Listing(objects[id := e], e.group) == Placed(ids, id, p)
            <==> FitsAt(objects, ids, p, SortKey(e.sort, id))
  {
    hide Listing, KeyLess, IsListing, FitsAt;
    var ids := Listing(objects, e.group);
    ListingIs(objects, e.group);
    ListedAre(objects, e.group, ids);
    var n := Placed(ids, id, p);
    if FitsAt(objects, ids, p, SortKey(e.sort, id)) { FitsPlaced(objects, id, e, ids, p); }
    if IsListing(n, objects[id := e], e.group) { PlacedFits(objects, id, e, ids, p); }
    ListingIsUnique(objects[id := e], e.group, n);
  }

  function Placed(ids: seq<RemoteId>, id: RemoteId, p: nat): (n: seq<RemoteId>)
    requires p <= |ids|
    ensures |n| == |ids| + 1
    ensures forall j :: 0 <= j < |n| ==> n[j] == if j < p then ids[j] else if j == p then id else ids[j - 1]
    ensures forall j :: j in n <==> j == id || j in ids
  {
    assert ids == ids[..p] + ids[p..];
    ids[..p] + [id] + ids[p..]
  }

  lemma ListedAre(objects: Table, group: RemoteId, ids: seq<RemoteId>)
    requires IsListing(ids, objects, group)
    ensures forall j :: j in ids ==> j in objects
  {
  }

  lemma FitsPlaced(objects: Table, id: RemoteId, e: Entry, ids: seq<RemoteId>, p: nat)
    requires IsListing(ids, objects, e.group) && id !in objects && p <= |ids|
    requires FitsAt(objects, ids, p, SortKey(e.sort, id))
    ensures IsListing(Placed(ids, id, p), objects[id := e], e.group)
  {
    hide KeyLess;
    var t, n := objects[id := e], Placed(ids, id, p);
    FitsAll(objects, e.group, ids, p, SortKey(e.sort, id));
    forall i, j | 0 <= i < j < |n|
      ensures KeyLess(KeyOf(t, n[i]), KeyOf(t, n[j]))
    {
      assert n[i] in n && n[j] in n;
    }
  }

  lemma PlacedFits(objects: Table, id: RemoteId, e: Entry, ids: seq<RemoteId>, p: nat)
    requires IsListing(ids, objects, e.group) && id !in objects && p <= |ids|
    requires IsListing(Placed(ids, id, p), objects[id := e], e.group)
    ensures FitsAt(objects, ids, p, SortKey(e.sort, id))
  {
    hide KeyLess;
    var t, n := objects[id := e], Placed(ids, id, p);
    if p > 0 { assert n[p - 1] in n && KeyLess(KeyOf(t, n[p - 1]), KeyOf(t, n[p])); }
    if p < |ids| { assert n[p + 1] in n && KeyLess(KeyOf(t, n[p]), KeyOf(t, n[p + 1])); }
  }

  /** A key that fits between its neighbours fits between everything. */
  lemma FitsAll(objects: Table, group: RemoteId, ids: seq<RemoteId>, p: nat, k: SortKey)
    requires IsListing(ids, objects, group) && p <= |ids| && FitsAt(objects, ids, p, k)
    ensures forall i :: 0 <= i < p ==> KeyLess(KeyOf(objects, ids[i]), k)
    ensures forall i :: p <= i < |ids| ==> KeyLess(k, KeyOf(objects, ids[i]))
  {
    hide KeyLess;
    forall i | 0 <= i < p
      ensures KeyLess(KeyOf(objects, ids[i]), k)
    {
      if i < p - 1 { KeyLessTransitive(KeyOf(objects, ids[i]), KeyOf(objects, ids[p - 1]), k); }
    }
    forall i | p <= i < |ids|
      ensures KeyLess(k, KeyOf(objects, ids[i]))
    {
      if i > p { KeyLessTransitive(k, KeyOf(objects, ids[p]), KeyOf(objects, ids[i])); }
    }
  }

  // ----- Placement

  /** A drag that is offered: an object over another one of a known group. */
  ghost predicate Offered(objects: Table, d: DragOver, id: RemoteId) {
    && id in objects && d.target in objects && id != d.target && d.target.id != 0
    && (!d.drag.Into? ==> Parent(objects, d.target) == AsGroup(d.group))
  }

  ghost function SortFor(objects: Table, d: DragOver): ByteString
    requires d.target in objects
  {
    NewSort(d, objects, Listing(objects, d.group), Listing(objects, d.target)).value
  }

  /** The table once the object has been dropped. */
  ghost function Dropped(objects: Table, d: DragOver, id: RemoteId): Table
    requires d.target in objects
  {
    objects[id := Entry(d.TargetGroup(), SortFor(objects, d))]
  }

  /** The other children of the group it is dropped in. */
  ghost function Others(objects: Table, d: DragOver, id: RemoteId): seq<RemoteId> {
    Except(Listing(objects, d.TargetGroup()), id)
  }

  ghost function Place(objects: Table, d: DragOver, id: RemoteId): nat {
    match d.drag
    case Above => IndexOf(Others(objects, d, id), d.target)
    case Below => IndexOf(Others(objects, d, id), d.target) + 1
    case Into => |Others(objects, d, id)|
  }

  /** It comes right before the target, right after it, or last in it, and the others keep their order. */
  ghost predicate LandsRight(objects: Table, d: DragOver, id: RemoteId)
    requires d.target in objects
  {
    && Place(objects, d, id) <= |Others(objects, d, id)|
    && Listing(Dropped(objects, d, id), d.TargetGroup()) == Placed(Others(objects, d, id), id, Place(objects, d, id))
  }

  /** Groups that are not dropped in only lose the object. */
  lemma OtherGroups(objects: Table, d: DragOver, id: RemoteId, group: RemoteId)
    requires d.target in objects && AsGroup(group) != AsGroup(d.TargetGroup())
    ensures Listing(Dropped(objects, d, id), group) == Except(Listing(objects, group), id)
  {
    hide Sorted;
    ListingRemoved(objects, id, group);
    assert Members(Dropped(objects, d, id), AsGroup(group)) == Members(objects - {id}, AsGroup(group));
  }

  /** Any entry of an object leaves the order of all others as it was, in every group. */
  lemma OthersStay(objects: Table, id: RemoteId, e: Entry, group: RemoteId)
    requires id in objects
    ensures Except(Listing(objects[id := e], group), id) == Except(Listing(objects, group), id)
  {
    hide Listing, Except;
    ListingRemoved(objects, id, group);
    ListingRemoved(objects[id := e], id, group);
    assert objects[id := e] - {id} == objects - {id};
  }

  lemma ListedIn(objects: Table, group: RemoteId, id: RemoteId)
    ensures id in Listing(objects, group) <==> id in objects && Parent(objects, id) == AsGroup(group)
  {
    ListingIs(objects, group);
  }

  /** A group is listed by sort key, and among equal ones by peer and then by identifier. */
  lemma ListingOrder(objects: Table, group: RemoteId, i: nat, j: nat)
    requires i < j < |Listing(objects, group)|
    ensures var a, b := Listing(objects, group)[i], Listing(objects, group)[j];
            && a in objects && b in objects
            && LessEq(objects[a].sort, objects[b].sort)
            && (objects[a].sort == objects[b].sort ==> a.peer <= b.peer && (a.peer == b.peer ==> a.id < b.id))
  {
    hide Listing;
    ListingIs(objects, group);
    var ids := Listing(objects, group);
    assert ids[i] in ids && ids[j] in ids;
    if objects[ids[i]].sort == objects[ids[j]].sort { LessIrreflexive(objects[ids[i]].sort); }
  }

  /**
   * A change of group takes an object from its group's list to that of the new one, a group of the object's own
   * peer, with its sort key; a change of the sort key leaves it in its group's list; all else stays in order.
   */
  lemma UpdateMoves(objects: Table, id: RemoteId, key: Key, value: Value, group: RemoteId)
    requires id in objects
    ensures var t := Updated(objects, id, key, value);
            && t.Keys == objects.Keys
            && t[id].sort == (if key == SORT then value.AsBytes() else objects[id].sort)
            && (id in Listing(t, group) <==>
                  if key == GROUP then group == RemoteId(id.peer, value.AsId()) || (group.id == 0 && value.AsId() == 0)
                  else id in Listing(objects, group))
            && (if key == GROUP || key == SORT
                then Except(Listing(t, group), id) == Except(Listing(objects, group), id)
                else Listing(t, group) == Listing(objects, group))
  {
    hide Listing, Except;
    var t := Updated(objects, id, key, value);
    ListedIn(objects, group, id);
    ListedIn(t, group, id);
    OthersStay(objects, id, t[id], group);
    assert objects[id := t[id]] == t;
  }

  lemma LandsRightExactly(objects: Table, d: DragOver, id: RemoteId)
    requires Offered(objects, d, id) && Place(objects, d, id) <= |Others(objects, d, id)|
    ensures forall j :: j in Others(objects, d, id) ==> j in objects - {id}
    ensures LandsRight(objects, d, id)
            <==> FitsAt(objects - {id}, Others(objects, d, id), Place(objects, d, id), SortKey(SortFor(objects, d), id))
  {
    hide Listing, FitsAt, SortFor, Placed, Place;
    var e := Entry(d.TargetGroup(), SortFor(objects, d));
    ListingRemoved(objects, id, e.group);
    InsertedExactly(objects - {id}, id, e, Place(objects, d, id));
    assert (objects - {id})[id := e] == objects[id := e];
  }

  lemma ExceptAt(s: seq<RemoteId>, id: RemoteId, target: RemoteId)
    requires Distinct(s) && target in s && id != target
    ensures |Except(s, id)| == if id in s then |s| - 1 else |s|
    ensures IndexOf(Except(s, id), target)
            == if IndexOf(s, target) < IndexOf(s, id) then IndexOf(s, target) else IndexOf(s, target) - 1
    ensures target in Except(s, id)
  {
    var o, i, j := Except(s, id), IndexOf(s, id), IndexOf(s, target);
    var q := if j < i then j else j - 1;
    assert o[q] == target;
    var p := IndexOf(o, target);
    assert s[if p < i then p else p + 1] == target;
  }

  /** The target's neighbours with and without the dragged object. */
  lemma Neighbours(s: seq<RemoteId>, id: RemoteId, target: RemoteId)
    requires Distinct(s) && target in s && id != target
    ensures var o := Except(s, id);
            var p := IndexOf(o, target);
            && p < |o|
            && (Previous(s, target).None? ==> p == 0)
            && (Previous(s, target).Some? && Previous(s, target).value != id ==> p > 0 && o[p - 1] == Previous(s, target).value)
            && (Previous(s, target) == Some(id) ==> Previous(s, id) == if p > 0 then Some(o[p - 1]) else None)
            && (Following(s, target).None? ==> p + 1 == |o|)
            && (Following(s, target).Some? && Following(s, target).value != id
                ==> p + 1 < |o| && o[p + 1] == Following(s, target).value)
            && (Following(s, target) == Some(id) ==> Following(s, id) == if p + 1 < |o| then Some(o[p + 1]) else None)
  {
    hide Except, IndexOf;
    ExceptAt(s, id, target);
    var o, i, j, p := Except(s, id), IndexOf(s, id), IndexOf(s, target), IndexOf(Except(s, id), target);
    if p > 0 {
      ExceptItem(s, id, p - 1);
    }
    if p + 1 < |o| {
      ExceptItem(s, id, p + 1);
    }
  }
}
