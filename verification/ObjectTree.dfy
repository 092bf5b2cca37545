/** The objects of the map, which inherit visibility and locks from the groups above them. */
module ObjectTree {
  import opened Bytes
  import opened Order

  datatype Visibility = Remote | Local | Hidden {
    function Rank(): nat {
      match this
      case Remote => 0
      case Local => 1
      case Hidden => 2
    }

    function Max(other: Visibility): Visibility { if Rank() < other.Rank() then other else this }
  }

  datatype Node = Node(group: RemoteId, sort: ByteString, localHidden: bool, hidden: bool, room: bool, lockedFlag: bool) {
    function Visibility(): Visibility { if localHidden then Hidden else if hidden then Local else Remote }

    /** Rooms have no lock. */
    predicate Locked() { !room && lockedFlag }
  }

  type Nodes = map<RemoteId, Node>

  // ----- Chains of groups

  /** A loop over the chain goes on at this object. */
  predicate Present(objects: Nodes, id: RemoteId) { id != ROOT && id in objects }

  /** The chain stops after `n` objects, at the root or at a missing group. */
  ghost predicate EndsIn(objects: Nodes, id: RemoteId, n: nat)
    decreases n
  {
    if n == 0 then !Present(objects, id) else Present(objects, id) && EndsIn(objects, objects[id].group, n - 1)
  }

  ghost predicate Ends(objects: Nodes, id: RemoteId) { exists n: nat :: EndsIn(objects, id, n) }

  ghost predicate Acyclic(objects: Nodes) { forall id :: Ends(objects, id) }

  /** `j` is `k` groups above `id`. */
  ghost predicate Climbs(objects: Nodes, id: RemoteId, j: RemoteId, k: nat)
    decreases k
  {
    Present(objects, id) && if k == 0 then id == j else Climbs(objects, objects[id].group, j, k - 1)
  }

  ghost predicate OnChain(objects: Nodes, id: RemoteId, j: RemoteId) { exists k: nat :: Climbs(objects, id, j, k) }

  lemma ChainStep(objects: Nodes, id: RemoteId, j: RemoteId)
    ensures OnChain(objects, id, j)
            <==> Present(objects, id) && (j == id || OnChain(objects, objects[id].group, j))
  {
    if Present(objects, id) {
      if j == id { assert Climbs(objects, id, j, 0); }
      if k: nat :| Climbs(objects, objects[id].group, j, k) { assert Climbs(objects, id, j, k + 1); }
    }
    if k: nat :| Climbs(objects, id, j, k) {
      if k > 0 { assert Climbs(objects, objects[id].group, j, k - 1); }
    }
  }

  lemma {:induction false} EndsUnique(objects: Nodes, id: RemoteId, m: nat, n: nat)
    requires EndsIn(objects, id, m) && EndsIn(objects, id, n)
    ensures m == n
    decreases m
  {
    if m > 0 && n > 0 { EndsUnique(objects, objects[id].group, m - 1, n - 1); }
  }

  /** The greatest visibility on the chain of a group. */
  method VisibilityOf(objects: Nodes, group: RemoteId) returns (v: Visibility)
    requires Ends(objects, group)
    ensures forall j :: OnChain(objects, group, j) ==> j in objects && objects[j].Visibility().Rank() <= v.Rank()
    ensures v == Remote || exists j :: OnChain(objects, group, j) && j in objects && objects[j].Visibility() == v
    ensures v == Hidden <==> exists j :: OnChain(objects, group, j) && j in objects && objects[j].localHidden
    ensures v == Remote <==> !exists j :: OnChain(objects, group, j) && j in objects && (objects[j].localHidden || objects[j].hidden)
  {
    v := Remote;
    var current := group;
    ghost var left: nat :| EndsIn(objects, group, left);
    while current != ROOT
      invariant EndsIn(objects, current, left)
      invariant forall j :: OnChain(objects, current, j) ==> OnChain(objects, group, j)
      invariant forall j :: OnChain(objects, group, j) ==>
                  OnChain(objects, current, j) || (j in objects && objects[j].Visibility().Rank() <= v.Rank())
      invariant v == Remote || exists j :: OnChain(objects, group, j) && j in objects && objects[j].Visibility() == v
      decreases left
    {
      if current !in objects {
        break;
      }
      forall j
        ensures OnChain(objects, current, j) <==> j == current || OnChain(objects, objects[current].group, j)
      {
        ChainStep(objects, current, j);
      }
      assert OnChain(objects, group, current);
      v := v.Max(objects[current].Visibility());
      current, left := objects[current].group, left - 1;
    }
    forall j
      ensures !OnChain(objects, current, j)
    {
      ChainStep(objects, current, j);
    }
  }

  /** The loop over locks comes to an end: at the end of the chain, or at a lock. */
  ghost predicate SettlesIn(objects: Nodes, id: RemoteId, n: nat)
    decreases n
  {
    if n == 0 then !Present(objects, id) || objects[id].Locked()
    else Present(objects, id) && SettlesIn(objects, objects[id].group, n - 1)
  }

  ghost predicate Settles(objects: Nodes, id: RemoteId) { exists n: nat :: SettlesIn(objects, id, n) }

  lemma {:induction false} EndsSettles(objects: Nodes, id: RemoteId, n: nat)
    requires EndsIn(objects, id, n)
    ensures SettlesIn(objects, id, n)
    decreases n
  {
    if n > 0 { EndsSettles(objects, objects[id].group, n - 1); }
  }

  /** Whether anything on the chain is locked. */
  method IsLocked(objects: Nodes, id: RemoteId) returns (locked: bool)
    requires Settles(objects, id)
    ensures locked <==> exists j :: OnChain(objects, id, j) && j in objects && objects[j].Locked()
    ensures locked <==> exists j :: OnChain(objects, id, j) && j in objects && objects[j].lockedFlag && !objects[j].room
  {
    var current := id;
    ghost var left: nat :| SettlesIn(objects, id, left);
    while current != ROOT
      invariant SettlesIn(objects, current, left)
      invariant forall j :: OnChain(objects, current, j) ==> OnChain(objects, id, j)
      invariant forall j :: OnChain(objects, id, j) ==> OnChain(objects, current, j) || (j in objects && !objects[j].Locked())
      decreases left
    {
      if current !in objects {
        break;
      }
      forall j
        ensures OnChain(objects, current, j) <==> j == current || OnChain(objects, objects[current].group, j)
      {
        ChainStep(objects, current, j);
      }
      if objects[current].Locked() {
        assert OnChain(objects, id, current);
        return true;
      }
      current, left := objects[current].group, left - 1;
    }
    forall j
      ensures !OnChain(objects, current, j)
    {
      ChainStep(objects, current, j);
    }
    locked := false;
  }

  // ----- Moving an object to another group

  function Reparented(objects: Nodes, id: RemoteId, group: RemoteId): Nodes
    requires id in objects
  {
    objects[id := objects[id].(group := group)]
  }

  /** A chain that climbs to the moved object still does, and can end no later than there. */
  lemma {:induction false} ClimbsOn(objects: Nodes, id: RemoteId, group: RemoteId, x: RemoteId, k: nat, n: nat) returns (m: nat)
    requires id in objects && Climbs(objects, x, id, k)
    requires EndsIn(Reparented(objects, id, group), x, n)
    ensures m <= n && EndsIn(Reparented(objects, id, group), id, m)
    decreases k
  {
    if x == id {
      m := n;
    } else {
      m := ClimbsOn(objects, id, group, objects[x].group, k - 1, n - 1);
    }
  }

  /** A chain that avoids the moved object stays as it is; one that meets it goes on from its new group. */
  lemma {:induction false} StillEnds(objects: Nodes, id: RemoteId, group: RemoteId, x: RemoteId, n: nat)
    requires Present(objects, id) && EndsIn(objects, x, n)
    requires !OnChain(objects, x, id) || Ends(Reparented(objects, id, group), id)
    ensures Ends(Reparented(objects, id, group), x)
    decreases n
  {
    var t := Reparented(objects, id, group);
    ChainStep(objects, x, id);
    if n == 0 {
      assert EndsIn(t, x, 0);
    } else if x != id {
      StillEnds(objects, id, group, objects[x].group, n - 1);
      var m: nat :| EndsIn(t, objects[x].group, m);
      assert EndsIn(t, x, m + 1);
    }
  }

  /** Moving an object keeps the chains acyclic exactly when the object is not on its new group's chain. */
  lemma ReparentExact(objects: Nodes, id: RemoteId, group: RemoteId)
    requires Acyclic(objects) && Present(objects, id)
    ensures Acyclic(Reparented(objects, id, group)) <==> !OnChain(objects, group, id)
  {
    var t := Reparented(objects, id, group);
    if OnChain(objects, group, id) {
      var k: nat :| Climbs(objects, group, id, k);
      if n: nat :| EndsIn(t, id, n) {
        var m := ClimbsOn(objects, id, group, group, k, n - 1);
        EndsUnique(t, id, m, n);
        assert false;
      }
      assert !Ends(t, id);
    } else {
      assert Ends(objects, group);
      var n: nat :| EndsIn(objects, group, n);
      StillEnds(objects, id, group, group, n);
      var m: nat :| EndsIn(t, group, m);
      assert EndsIn(t, id, m + 1);
      forall x
        ensures Ends(t, x)
      {
        assert Ends(objects, x);
        var e: nat :| EndsIn(objects, x, e);
        StillEnds(objects, id, group, x, e);
      }
    }
  }
}
