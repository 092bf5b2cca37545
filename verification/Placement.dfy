/** Exactly when a dropped object lands where it was dropped. */
module Placement {
  import opened Options
  import opened Bytes
  import opened Identifiers
  import opened Sorting
  import opened Order
  import opened OrderRef
  import opened DragOver

  /** The new key is above that of the other object, if there is one. */
  predicate AboveOther(objects: Table, other: Option<RemoteId>, sort: ByteString, id: RemoteId) {
    other.Some? && other.value in objects ==> KeyLess(KeyOf(objects, other.value), SortKey(sort, id))
  }

  predicate BelowOther(objects: Table, other: Option<RemoteId>, sort: ByteString, id: RemoteId) {
    other.Some? && other.value in objects ==> KeyLess(SortKey(sort, id), KeyOf(objects, other.value))
  }

  /**
   * An object right below its target has room to move up to it, or is sent back to a string of
   * zeros, which must then still be above the object before it.
   */
  predicate StaysAbove(objects: Table, before: Option<RemoteId>, id: RemoteId, target: ByteString)
    requires id in objects
  {
    var sort := objects[id].sort;
    && !NoRoomAbovePrefix(sort, target)
    && (LosesLow(sort, target) ==> |sort| <= |target| && AboveOther(objects, before, ZeroFilled(sort, target), id))
  }

  /** An object right above its target is not sent back, and not grown past the object after it. */
  predicate StaysBelow(objects: Table, after: Option<RemoteId>, id: RemoteId, target: ByteString)
    requires id in objects
  {
    var sort := objects[id].sort;
    && !LosesLow(target, sort)
    && (NoRoomAbovePrefix(target, sort) ==> BelowOther(objects, after, target + [MAX_BYTE / 2], id))
  }

  /** There is room between two sort keys. */
  ghost predicate HasRoom(lo: ByteString, hi: ByteString) {
    !NoRoomAbovePrefix(lo, hi) && !LosesLow(lo, hi)
  }

  /** The neighbours in a listing are below and above. */
  lemma NeighbourKeys(objects: Table, group: RemoteId, id: RemoteId)
    requires id in objects && Parent(objects, id) == AsGroup(group)
    ensures var s := Listing(objects, group);
            && Distinct(s) && id in s
            && (Previous(s, id).Some? ==>
                  Previous(s, id).value in objects && KeyLess(KeyOf(objects, Previous(s, id).value), KeyOf(objects, id)))
            && (Following(s, id).Some? ==>
                  Following(s, id).value in objects && KeyLess(KeyOf(objects, id), KeyOf(objects, Following(s, id).value)))
  {
    hide Listing, KeyLess, IndexOf;
    var s := Listing(objects, group);
    ListingIs(objects, group);
    var i := IndexOf(s, id);
    if Previous(s, id).Some? { assert s[i - 1] in s; }
    if Following(s, id).Some? { assert s[i + 1] in s; }
  }

  /** A neighbour is in the same group. */
  lemma NeighbourSibling(objects: Table, group: RemoteId, id: RemoteId)
    ensures var s := Listing(objects, group);
            && (Previous(s, id).Some? ==>
                  Previous(s, id).value in objects && Parent(objects, Previous(s, id).value) == AsGroup(group))
            && (Following(s, id).Some? ==>
                  Following(s, id).value in objects && Parent(objects, Following(s, id).value) == AsGroup(group))
  {
    hide Listing, KeyLess, IndexOf;
    var s := Listing(objects, group);
    ListingIs(objects, group);
    var i := IndexOf(s, id);
    if Previous(s, id).Some? { assert s[i - 1] in s; }
    if Following(s, id).Some? { assert s[i + 1] in s; }
  }

  lemma OthersAre(objects: Table, d: DragOver, id: RemoteId)
    ensures forall j :: j in Others(objects, d, id) ==> j in objects - {id}
  {
    hide Listing, Except;
    ListingIs(objects, d.TargetGroup());
    ExceptIs(Listing(objects, d.TargetGroup()), id);
  }

  /** Keys around a midpoint, whatever object it is for. */
  lemma MidpointFits(lo: SortKey, hi: SortKey, id: RemoteId)
    requires KeyLess(lo, hi)
    ensures var k := SortKey(Midpoint(lo.sort, hi.sort), id);
            && (lo.sort != hi.sort ==> (KeyLess(lo, k) && KeyLess(k, hi) <==> HasRoom(lo.sort, hi.sort)))
            && (lo.sort == hi.sort ==> (KeyLess(lo, k) && KeyLess(k, hi) <==> IdLess(lo.id, id) && IdLess(id, hi.id)))
            && (lo.sort != hi.sort && NoRoomAbovePrefix(lo.sort, hi.sort) ==> !KeyLess(k, hi))
            && (lo.sort != hi.sort && LosesLow(lo.sort, hi.sort) ==> !KeyLess(lo, k))
  {
    var mid := Midpoint(lo.sort, hi.sort);
    LessIrreflexive(lo.sort);
    MidpointSymmetric(lo.sort, hi.sort);
    if lo.sort != hi.sort {
      MidpointBetween(lo.sort, hi.sort);
      MidpointOutside(lo.sort, hi.sort);
      hide *;
      if Less(hi.sort, mid) { LessAsymmetric(hi.sort, mid); }
      if Less(mid, lo.sort) { LessAsymmetric(mid, lo.sort); }
    }
  }

  /** Dropped above the target, an object lands right before it exactly when the sort keys leave room. */
  lemma AbovePlaced(objects: Table, d: DragOver, id: RemoteId)
    requires Offered(objects, d, id) && d.drag.Above?
    ensures var prev, sort := Previous(Listing(objects, d.group), d.target), objects[d.target].sort;
            && (prev.None? ==> (LandsRight(objects, d, id) <==> exists i :: 0 <= i < |sort| && sort[i] >= 2))
            && (prev.Some? ==> prev.value in objects)
            && (prev.Some? && prev.value != id ==>
                  (LandsRight(objects, d, id) <==>
                   if objects[prev.value].sort != sort then HasRoom(objects[prev.value].sort, sort)
                   else IdLess(prev.value, id) && IdLess(id, d.target)))
            && (prev == Some(id) ==>
                  (LandsRight(objects, d, id) <==>
                   objects[id].sort == sort || StaysAbove(objects, Previous(Listing(objects, d.group), id), id, sort)))
  {
    hide Listing, KeyLess, Except, IndexOf, LandsRight, Previous, Following;
    hide HasRoom, Sorting.Before, Midpoint, IdLess, NoRoomAbovePrefix;
    var s, o := Listing(objects, d.group), Others(objects, d, id);
    var prev, target := Previous(s, d.target), objects[d.target].sort;
    var k := SortKey(SortFor(objects, d), id);
    NeighbourKeys(objects, d.group, d.target);
    Neighbours(s, id, d.target);
    OthersAre(objects, d, id);
    LandsRightExactly(objects, d, id);
    var p := Place(objects, d, id);
    assert KeyOf(objects - {id}, o[p]) == KeyOf(objects, d.target);
    if prev.None? {
      FirstFits(SortKey(target, d.target), id);
    } else {
      MidpointFits(KeyOf(objects, prev.value), KeyOf(objects, d.target), id);
      if prev.value == id {
        NeighbourSibling(objects, d.group, d.target);
        NeighbourKeys(objects, d.group, id);
        SelfFits(KeyOf(objects, id), KeyOf(objects, d.target));
        StaysAboveIs(objects, Previous(s, id), id, SortKey(target, d.target));
        if objects[id].sort == target { MidpointSymmetric(target, target); }
      }
    }
  }

  lemma FirstFits(hi: SortKey, id: RemoteId)
    ensures KeyLess(SortKey(Sorting.Before(hi.sort), id), hi) <==> exists i :: 0 <= i < |hi.sort| && hi.sort[i] >= 2
  {
    hide Sorting.Before;
    BeforeBelow(hi.sort);
    if forall i :: 0 <= i < |hi.sort| ==> hi.sort[i] < 2 {
      BeforeOutside(hi.sort);
      LessAsymmetric(hi.sort, Sorting.Before(hi.sort));
    }
  }

  /** Halfway to the neighbour above it, an object stays below that one unless there is no room below a prefix. */
  lemma SelfFits(me: SortKey, hi: SortKey)
    requires KeyLess(me, hi)
    ensures me.sort != hi.sort ==>
              (KeyLess(SortKey(Midpoint(me.sort, hi.sort), me.id), hi) <==> !NoRoomAbovePrefix(me.sort, hi.sort))
  {
    if me.sort != hi.sort {
      MidpointFits(me, hi, me.id);
      if LosesLow(me.sort, hi.sort) {
        MidpointOutside(me.sort, hi.sort);
        LessTransitive(Midpoint(me.sort, hi.sort), me.sort, hi.sort);
        NoRoomNotLost(me.sort, hi.sort);
      }
    }
  }

  /** With room, the object stays above what was before it without further ado. */
  lemma StaysAboveIs(objects: Table, before: Option<RemoteId>, id: RemoteId, hi: SortKey)
    requires id in objects && KeyLess(KeyOf(objects, id), hi)
    requires before.Some? ==> before.value in objects && KeyLess(KeyOf(objects, before.value), KeyOf(objects, id))
    ensures objects[id].sort != hi.sort ==>
              (StaysAbove(objects, before, id, hi.sort)
               <==> !NoRoomAbovePrefix(objects[id].sort, hi.sort)
                    && AboveOther(objects, before, Midpoint(objects[id].sort, hi.sort), id))
  {
    hide KeyLess, Midpoint, NoRoomAbovePrefix, LosesLow, ZeroFilled;
    var me := KeyOf(objects, id);
    if me.sort != hi.sort {
      KeyLessSorts(me, hi);
      MidpointOfFailure(me.sort, hi.sort);
      MidpointFits(me, hi, id);
      if before.Some? && HasRoom(me.sort, hi.sort) {
        KeyLessTransitive(KeyOf(objects, before.value), me, SortKey(Midpoint(me.sort, hi.sort), id));
      }
    }
  }

  lemma StaysBelowIs(objects: Table, after: Option<RemoteId>, id: RemoteId, lo: SortKey)
    requires id in objects && KeyLess(lo, KeyOf(objects, id))
    requires after.Some? ==> after.value in objects && KeyLess(KeyOf(objects, id), KeyOf(objects, after.value))
    ensures objects[id].sort != lo.sort ==>
              (StaysBelow(objects, after, id, lo.sort)
               <==> !LosesLow(lo.sort, objects[id].sort)
                    && BelowOther(objects, after, Midpoint(lo.sort, objects[id].sort), id))
  {
    hide KeyLess, Midpoint, NoRoomAbovePrefix, LosesLow;
    var me := KeyOf(objects, id);
    if me.sort != lo.sort {
      KeyLessSorts(lo, me);
      MidpointOfFailure(lo.sort, me.sort);
      MidpointFits(lo, me, id);
      if after.Some? && HasRoom(lo.sort, me.sort) {
        KeyLessTransitive(SortKey(Midpoint(lo.sort, me.sort), id), me, KeyOf(objects, after.value));
      }
    }
  }

  lemma KeyLessSorts(a: SortKey, b: SortKey)
    requires KeyLess(a, b) && a.sort != b.sort
    ensures Less(a.sort, b.sort)
  {
  }

  lemma NoRoomNotLost(lo: ByteString, hi: ByteString)
    requires LosesLow(lo, hi)
    ensures !NoRoomAbovePrefix(lo, hi)
  {
  }

  /** Dropped below the target, an object lands right after it exactly when the sort keys leave room. */
  lemma BelowPlaced(objects: Table, d: DragOver, id: RemoteId)
    requires Offered(objects, d, id) && d.drag.Below?
    ensures var next, sort := Following(Listing(objects, d.group), d.target), objects[d.target].sort;
            && (next.None? ==> LandsRight(objects, d, id))
            && (next.Some? ==> next.value in objects)
            && (next.Some? && next.value != id ==>
                  (LandsRight(objects, d, id) <==>
                   if objects[next.value].sort != sort then HasRoom(sort, objects[next.value].sort)
                   else IdLess(d.target, id) && IdLess(id, next.value)))
            && (next == Some(id) ==>
                  (LandsRight(objects, d, id) <==>
                   objects[id].sort == sort || StaysBelow(objects, Following(Listing(objects, d.group), id), id, sort)))
  {
    hide Listing, KeyLess, Except, IndexOf, LandsRight, Previous, Following;
    hide HasRoom, Sorting.After, Midpoint, IdLess, LosesLow;
    var s, o := Listing(objects, d.group), Others(objects, d, id);
    var next, target := Following(s, d.target), objects[d.target].sort;
    NeighbourKeys(objects, d.group, d.target);
    Neighbours(s, id, d.target);
    OthersAre(objects, d, id);
    LandsRightExactly(objects, d, id);
    var p := Place(objects, d, id);
    assert KeyOf(objects - {id}, o[p - 1]) == KeyOf(objects, d.target);
    if next.None? {
      LastFits(SortKey(target, d.target), id);
    } else {
      MidpointFits(KeyOf(objects, d.target), KeyOf(objects, next.value), id);
      if next.value == id {
        NeighbourSibling(objects, d.group, d.target);
        NeighbourKeys(objects, d.group, id);
        SelfFitsBelow(KeyOf(objects, d.target), KeyOf(objects, id));
        StaysBelowIs(objects, Following(s, id), id, SortKey(target, d.target));
        if objects[id].sort == target { MidpointSymmetric(target, target); }
      }
    }
  }

  lemma SelfFitsBelow(lo: SortKey, me: SortKey)
    requires KeyLess(lo, me)
    ensures me.sort != lo.sort ==>
              (KeyLess(lo, SortKey(Midpoint(lo.sort, me.sort), me.id)) <==> !LosesLow(lo.sort, me.sort))
  {
    if me.sort != lo.sort {
      MidpointFits(lo, me, me.id);
      if NoRoomAbovePrefix(lo.sort, me.sort) {
        MidpointOutside(lo.sort, me.sort);
        LessTransitive(lo.sort, me.sort, Midpoint(lo.sort, me.sort));
        if LosesLow(lo.sort, me.sort) { NoRoomNotLost(lo.sort, me.sort); }
      }
    }
  }

  lemma LastFits(lo: SortKey, id: RemoteId)
    ensures KeyLess(lo, SortKey(Sorting.After(lo.sort), id))
  {
    hide Sorting.After;
    AfterAbove(lo.sort);
  }

  /** Dropped into a group, an object always becomes its last child. */
  lemma IntoPlaced(objects: Table, d: DragOver, id: RemoteId)
    requires Offered(objects, d, id) && d.drag.Into?
    ensures LandsRight(objects, d, id)
  {
    hide Listing, KeyLess, Except, IndexOf, LandsRight, Sorting.After;
    var s, o := Listing(objects, d.target), Others(objects, d, id);
    ListingIs(objects, d.target);
    ExceptIs(s, id);
    OthersAre(objects, d, id);
    LandsRightExactly(objects, d, id);
    if |o| > 0 {
      assert o[|o| - 1] in o;
      assert s != [] && s[|s| - 1] in s;
      LastFits(KeyOf(objects, s[|s| - 1]), id);
      LastIsGreatest(objects, d.target, o[|o| - 1]);
      if o[|o| - 1] != s[|s| - 1] {
        KeyLessTransitive(KeyOf(objects, o[|o| - 1]), KeyOf(objects, s[|s| - 1]), SortKey(SortFor(objects, d), id));
      }
    }
  }

  lemma LastIsGreatest(objects: Table, group: RemoteId, id: RemoteId)
    requires id in Listing(objects, group)
    ensures var s := Listing(objects, group);
            && s != [] && id in objects && s[|s| - 1] in objects
            && (id == s[|s| - 1] || KeyLess(KeyOf(objects, id), KeyOf(objects, s[|s| - 1])))
  {
    hide Listing, KeyLess;
    ListingIs(objects, group);
    var s := Listing(objects, group);
    assert s[|s| - 1] in s;
  }
}
