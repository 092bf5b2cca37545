/** The index that keeps the objects of every group sorted. */
module Order {
  import opened Bytes
  import opened Values
  import opened Identifiers

  datatype RemoteId = RemoteId(peer: PeerId, id: Id)
  const ROOT := RemoteId(0, 0)

  /** Every group with a zero identifier is the root, whoever's it is. */
  function AsGroup(g: RemoteId): RemoteId { if g.id == 0 then ROOT else g }

  datatype SortKey = SortKey(sort: ByteString, id: RemoteId)

  predicate IdLess(a: RemoteId, b: RemoteId) { a.peer < b.peer || (a.peer == b.peer && a.id < b.id) }

  predicate KeyLess(a: SortKey, b: SortKey) { Less(a.sort, b.sort) || (a.sort == b.sort && IdLess(a.id, b.id)) }

  lemma KeyLessTotal(a: SortKey, b: SortKey)
    ensures a == b || KeyLess(a, b) || KeyLess(b, a)
  {
    LessTotal(a.sort, b.sort);
  }

  lemma KeyLessTransitive(a: SortKey, b: SortKey, c: SortKey)
    requires KeyLess(a, b) && KeyLess(b, c)
    ensures KeyLess(a, c)
  {
    if Less(a.sort, b.sort) && Less(b.sort, c.sort) { LessTransitive(a.sort, b.sort, c.sort); }
  }

  lemma KeyLessAsymmetric(a: SortKey, b: SortKey)
    requires KeyLess(a, b)
    ensures !KeyLess(b, a) && a != b
  {
    LessIrreflexive(a.sort);
    if Less(a.sort, b.sort) { LessAsymmetric(a.sort, b.sort); }
  }

  // ----- Sorted sets

  ghost predicate Ascending(s: seq<SortKey>) {
    forall i, j :: 0 <= i < j < |s| ==> KeyLess(s[i], s[j])
  }

  predicate IsLeast(s: set<SortKey>, k: SortKey) {
    k in s && forall j :: j in s && j != k ==> KeyLess(k, j)
  }

  lemma {:induction false} SomeLeast(s: set<SortKey>)
    requires s != {}
    ensures exists k :: IsLeast(s, k)
  {
    hide KeyLess;
    var x :| x in s;
    if s - {x} == {} {
      assert s == {x};
      assert IsLeast(s, x);
    } else {
      SomeLeast(s - {x});
      var y :| IsLeast(s - {x}, y);
      KeyLessTotal(x, y);
      if KeyLess(x, y) {
        forall j | j in s && j != x
          ensures KeyLess(x, j)
        {
          if j != y { KeyLessTransitive(x, y, j); }
        }
        assert IsLeast(s, x);
      } else {
        assert IsLeast(s, y);
      }
    }
  }

  lemma LeastUnique(s: set<SortKey>)
    ensures forall a, b :: IsLeast(s, a) && IsLeast(s, b) ==> a == b
  {
    hide KeyLess;
    forall a, b | IsLeast(s, a) && IsLeast(s, b)
      ensures a == b
    {
      if a != b { KeyLessAsymmetric(a, b); }
    }
  }

  /** The set in the order in which it is iterated. */
  function Sorted(s: set<SortKey>): (r: seq<SortKey>)
    ensures Ascending(r) && Elements(r) == s
    decreases s
  {
    if s == {} then []
    else
      SomeLeast(s);
      LeastUnique(s);
      var k :| IsLeast(s, k);
      var rest := Sorted(s - {k});
      assert forall j :: j in rest ==> j in Elements(rest);
      assert Elements([k] + rest) == {k} + Elements(rest);
      [k] + rest
  }

  /** There is only one ascending list of a set. */
  lemma {:induction false} SortedUnique(r: seq<SortKey>)
    requires Ascending(r)
    ensures r == Sorted(Elements(r))
  {
    hide KeyLess;
    if r != [] {
      var s := Elements(r);
      var t := Sorted(s);
      assert r[0] in s && t[0] in Elements(t) && r[0] in Elements(t) && t[0] in s;
      if r[0] != t[0] {
        KeyLessAsymmetric(r[0], t[0]);
      }
      AscendingRest(r);
      SortedUnique(r[1..]);
      assert r == [r[0]] + r[1..];
    }
  }

  lemma AscendingRest(r: seq<SortKey>)
    requires Ascending(r) && r != []
    ensures Ascending(r[1..]) && Elements(r[1..]) == Elements(r) - {r[0]}
    ensures Distinct(r)
  {
    forall i | 0 < i < |r|
      ensures r[i] != r[0]
    {
      KeyLessAsymmetric(r[0], r[i]);
    }
    forall i, j | 0 <= i < j < |r|
      ensures r[i] != r[j]
    {
      KeyLessAsymmetric(r[i], r[j]);
    }
    assert r == [r[0]] + r[1..];
    assert forall i :: 0 <= i < |r[1..]| ==> r[1..][i] == r[i + 1];
  }

  // ----- The table and its index

  datatype Entry = Entry(group: RemoteId, sort: ByteString)

  type Table = map<RemoteId, Entry>
  type Index = map<RemoteId, set<SortKey>>

  function Parent(objects: Table, id: RemoteId): RemoteId
    requires id in objects
  {
    AsGroup(objects[id].group)
  }

  function KeyOf(objects: Table, id: RemoteId): SortKey
    requires id in objects
  {
    SortKey(objects[id].sort, id)
  }

  /** The children of a group by going through all objects. */
  ghost function Members(objects: Table, group: RemoteId): (s: set<SortKey>)
    ensures forall k :: k in s <==> k.id in objects && Parent(objects, k.id) == group && k == KeyOf(objects, k.id)
  {
    set id | id in objects && Parent(objects, id) == group :: KeyOf(objects, id)
  }

  function ChildSet(children: Index, group: RemoteId): set<SortKey> {
    if group in children then children[group] else {}
  }

  /** The index holds exactly the objects of every group, and no empty groups. */
  ghost predicate Indexed(objects: Table, children: Index) {
    && (forall g :: ChildSet(children, g) == Members(objects, g))
    && (forall g :: g in children ==> children[g] != {})
  }

  function WithKey(children: Index, group: RemoteId, k: SortKey): Index {
    children[group := ChildSet(children, group) + {k}]
  }

  function WithoutKey(children: Index, group: RemoteId, k: SortKey): Index {
    if k !in ChildSet(children, group) then children
    else if ChildSet(children, group) == {k} then children - {group}
    else children[group := ChildSet(children, group) - {k}]
  }

  lemma IndexRemoved(objects: Table, children: Index, id: RemoteId)
    requires Indexed(objects, children) && id in objects
    ensures KeyOf(objects, id) in ChildSet(children, Parent(objects, id))
    ensures Indexed(objects - {id}, WithoutKey(children, Parent(objects, id), KeyOf(objects, id)))
  {
    var c := WithoutKey(children, Parent(objects, id), KeyOf(objects, id));
    forall g
      ensures ChildSet(c, g) == Members(objects - {id}, g)
    {
      assert Members(objects - {id}, g) == Members(objects, g) - {KeyOf(objects, id)};
    }
  }

  lemma IndexAdded(objects: Table, children: Index, id: RemoteId, e: Entry)
    requires Indexed(objects, children) && id !in objects
    ensures SortKey(e.sort, id) !in ChildSet(children, AsGroup(e.group))
    ensures Indexed(objects[id := e], WithKey(children, AsGroup(e.group), SortKey(e.sort, id)))
  {
    var c := WithKey(children, AsGroup(e.group), SortKey(e.sort, id));
    var t := objects[id := e];
    forall g
      ensures ChildSet(c, g) == Members(t, g)
    {
      assert Members(t, g) == Members(objects, g) + if AsGroup(e.group) == g then {SortKey(e.sort, id)} else {};
    }
  }

  /** An entry for an identifier that is there already leaves the index right exactly when nothing changes. */
  lemma IndexReplaced(objects: Table, children: Index, id: RemoteId, e: Entry)
    requires Indexed(objects, children) && id in objects
    ensures Indexed(objects[id := e], WithKey(children, AsGroup(e.group), SortKey(e.sort, id)))
            <==> AsGroup(e.group) == Parent(objects, id) && e.sort == objects[id].sort
  {
    var c := WithKey(children, AsGroup(e.group), SortKey(e.sort, id));
    var t := objects[id := e];
    var old', p := KeyOf(objects, id), Parent(objects, id);
    if AsGroup(e.group) == p && e.sort == objects[id].sort {
      forall g
        ensures ChildSet(c, g) == Members(t, g)
      {
        assert Members(t, g) == Members(objects, g);
        assert old' in Members(objects, p);
      }
    } else {
      assert old' in Members(objects, p) && old' in ChildSet(c, p);
      assert old' !in Members(t, p);
    }
  }

  /** Both tables filtered by peer: right exactly when no kept object sits in a dropped group. */
  lemma IndexRetained(objects: Table, children: Index, keep: PeerId -> bool)
    requires Indexed(objects, children)
    ensures Indexed(RetainedTable(objects, keep), RetainedIndex(children, keep))
            <==> forall id :: id in objects && keep(id.peer) ==> keep(Parent(objects, id).peer)
  {
    var t, c := RetainedTable(objects, keep), RetainedIndex(children, keep);
    if forall id :: id in objects && keep(id.peer) ==> keep(Parent(objects, id).peer) {
      forall g
        ensures ChildSet(c, g) == Members(t, g)
      {
        RetainedSet(objects, children, keep, g);
      }
    }
    forall id | id in objects && keep(id.peer) && Indexed(t, c)
      ensures keep(Parent(objects, id).peer)
    {
      var g := Parent(objects, id);
      assert KeyOf(t, id) in Members(t, g);
      assert g in c;
    }
  }

  lemma RetainedSet(objects: Table, children: Index, keep: PeerId -> bool, g: RemoteId)
    requires Indexed(objects, children)
    requires forall id :: id in objects && keep(id.peer) ==> keep(Parent(objects, id).peer)
    ensures ChildSet(RetainedIndex(children, keep), g) == Members(RetainedTable(objects, keep), g)
  {
    var t, c := RetainedTable(objects, keep), RetainedIndex(children, keep);
    forall k
      ensures k in ChildSet(c, g) <==> k in Members(t, g)
    {
      assert k in ChildSet(children, g) <==> k in Members(objects, g);
    }
  }

  function RetainedTable(objects: Table, keep: PeerId -> bool): Table {
    map id | id in objects && keep(id.peer) :: objects[id]
  }

  function RetainedKeys(s: set<SortKey>, keep: PeerId -> bool): set<SortKey> { set k | k in s && keep(k.id.peer) }

  function RetainedIndex(children: Index, keep: PeerId -> bool): Index {
    map g | g in children && keep(g.peer) && RetainedKeys(children[g], keep) != {} :: RetainedKeys(children[g], keep)
  }

  /** The table after a property of an object has changed. */
  function Updated(objects: Table, id: RemoteId, key: Key, value: Value): Table {
    if id !in objects then objects
    else if key == SORT then objects[id := objects[id].(sort := value.AsBytes())]
    else if key == GROUP then objects[id := objects[id].(group := RemoteId(id.peer, value.AsId()))]
    else objects
  }

  // ----- What the map does to the table

  /** An object's entry is made of its properties, its group being one of its own peer's. */
  function EntryOf(peer: PeerId, props: Properties): Entry {
    Entry(RemoteId(peer, Get(props, GROUP).AsId()), Get(props, SORT).AsBytes())
  }

  /** An update of the table is the entry of the updated object. */
  lemma UpdatedAsReentered(objects: Table, id: RemoteId, props: Properties, key: Key, value: Value)
    requires id in objects && objects[id] == EntryOf(id.peer, props)
    ensures Updated(objects, id, key, value) == objects[id := EntryOf(id.peer, Inserted(props, key, value))]
  {
  }

  /** Every group belongs to its objects' peer, or is the root. */
  ghost predicate Owned(objects: Table) {
    forall id :: id in objects ==> objects[id].group.peer == id.peer || objects[id].group.id == 0
  }

  datatype Edit =
    | Enter(id: RemoteId, props: Properties)
    | Set(id: RemoteId, key: Key, value: Value)
    | Move(id: RemoteId, group: RemoteId, sort: ByteString)
    | Leave(id: RemoteId)
    | Keep(keep: PeerId -> bool)

  function Edited(objects: Table, e: Edit): Table {
    match e
    case Enter(id, props) => objects[id := EntryOf(id.peer, props)]
    case Set(id, key, value) => Updated(objects, id, key, value)
    case Move(id, group, sort) => if id in objects then objects[id := Entry(group, sort)] else objects
    case Leave(id) => objects - {id}
    case Keep(keep) => RetainedTable(objects, keep)
  }

  function EditedAll(objects: Table, edits: seq<Edit>): Table
    decreases |edits|
  {
    if edits == [] then objects else EditedAll(Edited(objects, edits[0]), edits[1..])
  }

  /** Only local objects are dragged, and only into local groups. */
  ghost predicate MovesLocally(edits: seq<Edit>) {
    forall e :: e in edits && e.Move? ==> e.id.peer == 0 && e.group.peer == 0
  }

  /** Whatever happens to the map, groups stay with their objects' peers. */
  lemma {:induction false} AlwaysOwned(objects: Table, edits: seq<Edit>)
    requires Owned(objects) && MovesLocally(edits)
    ensures Owned(EditedAll(objects, edits))
    decreases |edits|
  {
    if edits != [] {
      assert edits[0] in edits;
      assert Owned(Edited(objects, edits[0]));
      AlwaysOwned(Edited(objects, edits[0]), edits[1..]);
    }
  }
}
