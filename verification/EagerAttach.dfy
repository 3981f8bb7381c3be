/** Joining in memory: the nodes of a batch are indexed by id or foreign key, and the rows of the one query are
    handed to them. Stated for arbitrary rows and nodes, so also for rows no query should return. */
module EagerAttach {
  import opened Basics
  import opened AccountEntity
  import opened EagerModel
  import opened EagerSpec
  import opened EagerNaive
  import opened EagerFailures
  import opened Nodes

  datatype LoadError = InvalidField(field: Field) | NilForeignKey(node: int) | UnexpectedForeignKey(key: int)
    | UnexpectedNode(id: int)

  /** Nodes and the rows they were scanned from, in step. */
  ghost predicate Hold(nodes: seq<Account>, rows: seq<AccountRow>)
    reads nodes`row
  {
    |nodes| == |rows| && forall i :: 0 <= i < |nodes| ==> nodes[i].row == rows[i]
  }

  ghost predicate HoldJoins(nodes: seq<AccountGroup>, rows: seq<AccountGroupRow>)
    reads nodes`row
  {
    |nodes| == |rows| && forall i :: 0 <= i < |nodes| ==> nodes[i].row == rows[i]
  }

  // ======== the two ways nodes are indexed ========

  ghost predicate ByKey<N>(nodes: seq<N>, keys: seq<Option<int>>, nodeids: map<int, seq<N>>)
    requires |nodes| == |keys|
  {
    forall k :: if Some(k) in keys then k in nodeids && nodeids[k] == Pick(nodes, keys, Some(k)) else k !in nodeids
  }

  /** By foreign key: the distinct keys to ask for, and for each the nodes that have it. Nodes without a key
      are skipped. */
  method IndexByForeignKey<N>(nodes: seq<N>, keys: seq<Option<int>>) returns (ids: seq<int>, nodeids: map<int, seq<N>>)
    requires |nodes| == |keys|
    ensures ids == PresentKeys(keys)
    ensures ByKey(nodes, keys, nodeids)
  {
    ids, nodeids := [], map[];
    for i := 0 to |nodes|
      invariant ids == PresentKeys(keys[..i])
      invariant ByKey(nodes[..i], keys[..i], nodeids)
    {
      ghost var before, beforeKeys := nodes[..i], keys[..i];
      assert nodes[..i + 1][..i] == before && keys[..i + 1][..i] == beforeKeys;
      assert keys[..i + 1] == beforeKeys + [keys[i]];
      if keys[i].None? {
        assert forall k :: Some(k) in keys[..i + 1] <==> Some(k) in beforeKeys;
        continue;
      }
      var fk := keys[i].value;
      PresentKeysComplete(beforeKeys, fk);
      if fk !in nodeids {
        ids := ids + [fk];
        PickAbsent(before, beforeKeys, Some(fk));
        nodeids := nodeids[fk := [nodes[i]]];
      } else {
        nodeids := nodeids[fk := nodeids[fk] + [nodes[i]]];
      }
    }
    assert nodes[..|nodes|] == nodes && keys[..|nodes|] == keys;
  }

  lemma {:induction false} PickAbsent<T, K>(xs: seq<T>, ks: seq<K>, k: K)
    requires |xs| == |ks| && k !in ks
    ensures Pick(xs, ks, k) == []
  {
    if xs != [] {
      PickAbsent(xs[..|xs| - 1], ks[..|xs| - 1], k);
    }
  }

  lemma {:induction false} PickMember<T, K>(xs: seq<T>, ks: seq<K>, k: K, x: T)
    requires |xs| == |ks|
    ensures x in Pick(xs, ks, k) <==> exists i :: 0 <= i < |xs| && ks[i] == k && xs[i] == x
  {
    if xs != [] {
      var n := |xs| - 1;
      PickMember(xs[..n], ks[..n], k, x);
      assert forall i :: 0 <= i < n ==> ks[..n][i] == ks[i] && xs[..n][i] == xs[i];
    }
  }

  ghost predicate ById<N>(nodes: seq<N>, ids: seq<int>, nodeids: map<int, N>)
    requires |nodes| == |ids|
  {
    forall k :: LastWith(nodes, ids, k) == if k in nodeids then Some(nodeids[k]) else None
  }

  /** By id: the ids to ask for, and for each the node that has it, the last one if several do. */
  method IndexById<N>(nodes: seq<N>, ids: seq<int>) returns (fks: seq<int>, nodeids: map<int, N>)
    requires |nodes| == |ids|
    ensures fks == ids
    ensures ById(nodes, ids, nodeids)
  {
    fks, nodeids := [], map[];
    for i := 0 to |nodes|
      invariant fks == ids[..i]
      invariant ById(nodes[..i], ids[..i], nodeids)
    {
      assert nodes[..i + 1][..i] == nodes[..i] && ids[..i + 1][..i] == ids[..i];
      fks := fks + [ids[i]];
      nodeids := nodeids[ids[i] := nodes[i]];
    }
    assert nodes[..|nodes|] == nodes && ids[..|nodes|] == ids;
  }

  // ======== handing the found rows to the nodes ========

  /** The first row whose key leads to no node, or the number of rows. */
  function Stray(keys: seq<Option<int>>, known: set<int>): (k: nat)
    ensures k <= |keys|
    ensures k < |keys| ==> !(keys[k].Some? && keys[k].value in known)
    ensures forall j :: 0 <= j < k ==> keys[j].Some? && keys[j].value in known
    decreases |keys|
  {
    if keys == [] then 0
    else
      var n := |keys| - 1;
      var k := Stray(keys[..n], known);
      assert forall j :: 0 <= j < n ==> keys[..n][j] == keys[j];
      if k < n then k else if keys[n].Some? && keys[n].value in known then n + 1 else n
  }

  /** Node i is the one its id stands for. */
  ghost predicate Owns<N>(nodes: seq<N>, ids: seq<int>, i: nat)
    requires |nodes| == |ids| && i < |nodes|
  {
    LastWith(nodes, ids, ids[i]) == Some(nodes[i])
  }

  /** What node i receives of rows that carry the id of their node. */
  ghost function Received<N, T>(nodes: seq<N>, ids: seq<int>, i: nat, found: seq<T>, keys: seq<Option<int>>): seq<T>
    requires |nodes| == |ids| && i < |nodes| && |found| == |keys|
  {
    if Owns(nodes, ids, i) then Pick(found, keys, Some(ids[i])) else []
  }

  lemma {:induction false} ReceivedSnoc<N, T>(nodes: seq<N>, ids: seq<int>, i: nat, found: seq<T>,
                                              keys: seq<Option<int>>, j: nat)
    requires |nodes| == |ids| && i < |nodes| && |found| == |keys| && j < |found|
    ensures Received(nodes, ids, i, found[..j + 1], keys[..j + 1])
         == Received(nodes, ids, i, found[..j], keys[..j])
            + (if Owns(nodes, ids, i) && keys[j] == Some(ids[i]) then [found[j]] else [])
  {
    assert found[..j + 1][..j] == found[..j] && keys[..j + 1][..j] == keys[..j];
  }

  lemma {:induction false} NoneReceived<N, T>(nodes: seq<N>, ids: seq<int>, i: nat, found: seq<T>,
                                              keys: seq<Option<int>>)
    requires |nodes| == |ids| && i < |nodes| && |found| == |keys|
    ensures Received(nodes, ids, i, found[..0], keys[..0]) == []
  {
  }

  ghost predicate GivenChildren(nodes: seq<Account>, ids: seq<int>, start: seq<seq<Account>>,
                                found: seq<Account>, keys: seq<Option<int>>)
    requires |nodes| == |ids| == |start| && |found| == |keys|
    reads nodes`children
  {
    forall i :: 0 <= i < |nodes| ==> nodes[i].children == start[i] + Received(nodes, ids, i, found, keys)
  }

  method GiveChild(nodes: seq<Account>, ghost rows: seq<AccountRow>, nodeids: map<int, Account>,
                   ghost start: seq<seq<Account>>, neighbors: seq<Account>, ghost keys: seq<Option<int>>, j: nat,
                   k: int)
    requires Hold(nodes, rows) && ById(nodes, IDs(rows), nodeids) && |start| == |nodes|
    requires j < |neighbors| == |keys| && keys[j] == Some(k) && k in nodeids
    requires GivenChildren(nodes, IDs(rows), start, neighbors[..j], keys[..j])
    modifies nodes`children
    ensures GivenChildren(nodes, IDs(rows), start, neighbors[..j + 1], keys[..j + 1])
  {
    ghost var ids := IDs(rows);
    assert LastWith(nodes, ids, k).Some?;
    var node := nodeids[k];
    node.children := node.children + [neighbors[j]];
    forall i | 0 <= i < |nodes|
      ensures nodes[i].children == start[i] + Received(nodes, ids, i, neighbors[..j + 1], keys[..j + 1])
    {
      ReceivedSnoc(nodes, ids, i, neighbors, keys, j);
      OwnerIsUnique(nodes, ids, nodeids, i, k);
    }
  }

  /** Children go to the node their foreign key names. Every row before the first stray one is handed out,
      to one node, in order; the first stray row ends the load with an error. */
  method AttachChildren(nodes: seq<Account>, ghost rows: seq<AccountRow>, nodeids: map<int, Account>,
                        ghost start: seq<seq<Account>>, neighbors: seq<Account>,
                        ghost keys: seq<Option<int>>) returns (err: Option<LoadError>)
    requires Hold(nodes, rows) && ById(nodes, IDs(rows), nodeids) && |start| == |nodes|
    requires forall i :: 0 <= i < |nodes| ==> nodes[i].children == start[i]
    requires |keys| == |neighbors| && forall j :: 0 <= j < |neighbors| ==> neighbors[j].row.parentAccountID == keys[j]
    modifies nodes`children
    ensures var k := Stray(keys, nodeids.Keys);
            err == (if k == |keys| then None
                    else if keys[k].None? then Some(NilForeignKey(neighbors[k].row.id))
                    else Some(UnexpectedForeignKey(keys[k].value)))
    ensures var k := Stray(keys, nodeids.Keys); GivenChildren(nodes, IDs(rows), start, neighbors[..k], keys[..k])
  {
    hide Stray, Received, Pick, LastWith;
    forall i | 0 <= i < |nodes|
      ensures nodes[i].children == start[i] + Received(nodes, IDs(rows), i, neighbors[..0], keys[..0]) {
      NoneReceived(nodes, IDs(rows), i, neighbors, keys);
    }
    for j := 0 to |neighbors|
      invariant Stray(keys[..j], nodeids.Keys) == j
      invariant GivenChildren(nodes, IDs(rows), start, neighbors[..j], keys[..j])
    {
      var fk := neighbors[j].row.parentAccountID;
      StraySnoc(keys, nodeids.Keys, j);
      if fk == None {
        return Some(NilForeignKey(neighbors[j].row.id));
      }
      if fk.value !in nodeids {
        return Some(UnexpectedForeignKey(fk.value));
      }
      GiveChild(nodes, rows, nodeids, start, neighbors, keys, j, fk.value);
    }
    assert keys[..|keys|] == keys;
    return None;
  }

  ghost predicate GivenUsageLogs(nodes: seq<Account>, ids: seq<int>, start: seq<seq<LeafNode>>, found: seq<LeafNode>,
                                 keys: seq<Option<int>>)
    requires |nodes| == |ids| == |start| && |found| == |keys|
    reads nodes`usageLogs
  {
    forall i :: 0 <= i < |nodes| ==> nodes[i].usageLogs == start[i] + Received(nodes, ids, i, found, keys)
  }

  method GiveUsageLog(nodes: seq<Account>, ghost rows: seq<AccountRow>, nodeids: map<int, Account>,
                      ghost start: seq<seq<LeafNode>>, neighbors: seq<LeafNode>, ghost keys: seq<Option<int>>, j: nat,
                      k: int)
    requires Hold(nodes, rows) && ById(nodes, IDs(rows), nodeids) && |start| == |nodes|
    requires j < |neighbors| == |keys| && keys[j] == Some(k) && k in nodeids
    requires GivenUsageLogs(nodes, IDs(rows), start, neighbors[..j], keys[..j])
    modifies nodes`usageLogs
    ensures GivenUsageLogs(nodes, IDs(rows), start, neighbors[..j + 1], keys[..j + 1])
  {
    ghost var ids := IDs(rows);
    assert LastWith(nodes, ids, k).Some?;
    var node := nodeids[k];
    node.usageLogs := node.usageLogs + [neighbors[j]];
    forall i | 0 <= i < |nodes|
      ensures nodes[i].usageLogs == start[i] + Received(nodes, ids, i, neighbors[..j + 1], keys[..j + 1])
    {
      ReceivedSnoc(nodes, ids, i, neighbors, keys, j);
      OwnerIsUnique(nodes, ids, nodeids, i, k);
    }
  }

  /** Usage logs go to the account they name. */
  method AttachUsageLogs(nodes: seq<Account>, ghost rows: seq<AccountRow>, nodeids: map<int, Account>,
                         ghost start: seq<seq<LeafNode>>, neighbors: seq<LeafNode>,
                         ghost keys: seq<Option<int>>) returns (err: Option<LoadError>)
    requires Hold(nodes, rows) && ById(nodes, IDs(rows), nodeids) && |start| == |nodes|
    requires forall i :: 0 <= i < |nodes| ==> nodes[i].usageLogs == start[i]
    requires |keys| == |neighbors| && forall j :: 0 <= j < |neighbors| ==> keys[j] == Some(neighbors[j].row.accountID)
    modifies nodes`usageLogs
    ensures var k := Stray(keys, nodeids.Keys);
            err == (if k == |keys| then None else Some(UnexpectedForeignKey(keys[k].value)))
    ensures var k := Stray(keys, nodeids.Keys); GivenUsageLogs(nodes, IDs(rows), start, neighbors[..k], keys[..k])
  {
    hide Stray, Received, Pick, LastWith;
    forall i | 0 <= i < |nodes|
      ensures nodes[i].usageLogs == start[i] + Received(nodes, IDs(rows), i, neighbors[..0], keys[..0]) {
      NoneReceived(nodes, IDs(rows), i, neighbors, keys);
    }
    for j := 0 to |neighbors|
      invariant Stray(keys[..j], nodeids.Keys) == j
      invariant GivenUsageLogs(nodes, IDs(rows), start, neighbors[..j], keys[..j])
    {
      var fk := neighbors[j].row.accountID;
      StraySnoc(keys, nodeids.Keys, j);
      if fk !in nodeids {
        return Some(UnexpectedForeignKey(fk));
      }
      GiveUsageLog(nodes, rows, nodeids, start, neighbors, keys, j, fk);
    }
    assert keys[..|keys|] == keys;
    return None;
  }

  ghost predicate GivenAccountGroups(nodes: seq<Account>, ids: seq<int>, start: seq<seq<AccountGroup>>,
                                     found: seq<AccountGroup>, keys: seq<Option<int>>)
    requires |nodes| == |ids| == |start| && |found| == |keys|
    reads nodes`accountGroups
  {
    forall i :: 0 <= i < |nodes| ==> nodes[i].accountGroups == start[i] + Received(nodes, ids, i, found, keys)
  }

  method GiveAccountGroup(nodes: seq<Account>, ghost rows: seq<AccountRow>, nodeids: map<int, Account>,
                          ghost start: seq<seq<AccountGroup>>, neighbors: seq<AccountGroup>,
                          ghost keys: seq<Option<int>>, j: nat, k: int)
    requires Hold(nodes, rows) && ById(nodes, IDs(rows), nodeids) && |start| == |nodes|
    requires j < |neighbors| == |keys| && keys[j] == Some(k) && k in nodeids
    requires GivenAccountGroups(nodes, IDs(rows), start, neighbors[..j], keys[..j])
    modifies nodes`accountGroups
    ensures GivenAccountGroups(nodes, IDs(rows), start, neighbors[..j + 1], keys[..j + 1])
  {
    ghost var ids := IDs(rows);
    assert LastWith(nodes, ids, k).Some?;
    var node := nodeids[k];
    node.accountGroups := node.accountGroups + [neighbors[j]];
    forall i | 0 <= i < |nodes|
      ensures nodes[i].accountGroups == start[i] + Received(nodes, ids, i, neighbors[..j + 1], keys[..j + 1])
    {
      ReceivedSnoc(nodes, ids, i, neighbors, keys, j);
      OwnerIsUnique(nodes, ids, nodeids, i, k);
    }
  }

  /** Join rows go to the account they name. */
  method AttachAccountGroups(nodes: seq<Account>, ghost rows: seq<AccountRow>, nodeids: map<int, Account>,
                             ghost start: seq<seq<AccountGroup>>, neighbors: seq<AccountGroup>,
                             ghost keys: seq<Option<int>>) returns (err: Option<LoadError>)
    requires Hold(nodes, rows) && ById(nodes, IDs(rows), nodeids) && |start| == |nodes|
    requires forall i :: 0 <= i < |nodes| ==> nodes[i].accountGroups == start[i]
    requires |keys| == |neighbors| && forall j :: 0 <= j < |neighbors| ==> keys[j] == Some(neighbors[j].row.accountID)
    modifies nodes`accountGroups
    ensures var k := Stray(keys, nodeids.Keys);
            err == (if k == |keys| then None else Some(UnexpectedForeignKey(keys[k].value)))
    ensures var k := Stray(keys, nodeids.Keys); GivenAccountGroups(nodes, IDs(rows), start, neighbors[..k], keys[..k])
  {
    hide Stray, Received, Pick, LastWith;
    forall i | 0 <= i < |nodes|
      ensures nodes[i].accountGroups == start[i] + Received(nodes, IDs(rows), i, neighbors[..0], keys[..0]) {
      NoneReceived(nodes, IDs(rows), i, neighbors, keys);
    }
    for j := 0 to |neighbors|
      invariant Stray(keys[..j], nodeids.Keys) == j
      invariant GivenAccountGroups(nodes, IDs(rows), start, neighbors[..j], keys[..j])
    {
      var fk := neighbors[j].row.accountID;
      StraySnoc(keys, nodeids.Keys, j);
      if fk !in nodeids {
        return Some(UnexpectedForeignKey(fk));
      }
      GiveAccountGroup(nodes, rows, nodeids, start, neighbors, keys, j, fk);
    }
    assert keys[..|keys|] == keys;
    return None;
  }

  // ---- to-one edges ----

  /** The nodes under a key are exactly the nodes that have it. */
  lemma {:induction false} Targeted<N>(nodes: seq<N>, keys: seq<Option<int>>, targets: seq<N>, k: Option<int>)
    requires |nodes| == |keys| && targets == Pick(nodes, keys, k)
    requires forall i, j :: 0 <= i < j < |nodes| && nodes[i] == nodes[j] ==> keys[i] == keys[j]
    ensures forall i :: 0 <= i < |nodes| ==> (nodes[i] in targets <==> keys[i] == k)
    ensures forall x :: x in targets ==> x in nodes
  {
    forall i | 0 <= i < |nodes| ensures nodes[i] in targets <==> keys[i] == k {
      PickMember(nodes, keys, k, nodes[i]);
    }
  }

  function Somes(ids: seq<int>): (keys: seq<Option<int>>)
    ensures |keys| == |ids|
  {
    seq(|ids|, i requires 0 <= i < |ids| => Some(ids[i]))
  }

  ghost predicate PointToProxies(nodes: seq<Account>, keys: seq<Option<int>>, start: seq<LeafNode?>,
                                 found: seq<LeafNode>, ids: seq<int>)
    requires |nodes| == |keys| == |start| && |found| == |ids|
    reads nodes`proxy
  {
    forall i :: 0 <= i < |nodes| ==>
      nodes[i].proxy == match Target(found, ids, keys[i]) case Some(n) => n case None => start[i]
  }

  method SetProxy(nodes: seq<Account>, ghost keys: seq<Option<int>>, targets: seq<Account>, ghost start: seq<LeafNode?>,
                  neighbors: seq<LeafNode>, ghost ids: seq<int>, j: nat)
    requires |nodes| == |keys| == |start| && j < |neighbors| == |ids|
    requires targets == Pick(nodes, keys, Some(ids[j]))
    requires forall i, j :: 0 <= i < j < |nodes| && nodes[i] == nodes[j] ==> keys[i] == keys[j]
    requires PointToProxies(nodes, keys, start, neighbors[..j], ids[..j])
    modifies nodes`proxy
    ensures PointToProxies(nodes, keys, start, neighbors[..j + 1], ids[..j + 1])
  {
    hide Pick;
    Targeted(nodes, keys, targets, Some(ids[j]));
    for i := 0 to |targets|
      invariant forall x :: x in targets[..i] ==> x.proxy == neighbors[j]
      invariant forall x :: x in nodes && x !in targets ==> x.proxy == old(x.proxy)
    {
      assert targets[i] in targets;
      targets[i].proxy := neighbors[j];
    }
    assert targets[..|targets|] == targets;
    assert neighbors[..j + 1][..j] == neighbors[..j] && ids[..j + 1][..j] == ids[..j];
  }

  /** Every node holds the last found proxy its key names, if there is one, and is unchanged otherwise. */
  method AttachProxies(nodes: seq<Account>, ghost keys: seq<Option<int>>, nodeids: map<int, seq<Account>>,
                       ghost start: seq<LeafNode?>, neighbors: seq<LeafNode>,
                       ghost ids: seq<int>) returns (err: Option<LoadError>)
    requires |nodes| == |keys| == |start| && ByKey(nodes, keys, nodeids)
    requires forall i, j :: 0 <= i < j < |nodes| && nodes[i] == nodes[j] ==> keys[i] == keys[j]
    requires forall i :: 0 <= i < |nodes| ==> nodes[i].proxy == start[i]
    requires |ids| == |neighbors| && forall j :: 0 <= j < |neighbors| ==> ids[j] == neighbors[j].row.id
    modifies nodes`proxy
    ensures var k := Stray(Somes(ids), nodeids.Keys);
            err == (if k == |ids| then None else Some(UnexpectedForeignKey(ids[k])))
    ensures var k := Stray(Somes(ids), nodeids.Keys); PointToProxies(nodes, keys, start, neighbors[..k], ids[..k])
  {
    assert PointToProxies(nodes, keys, start, neighbors[..0], ids[..0]);
    hide Stray, Received, Pick, Target, LastWith;
    for j := 0 to |neighbors|
      invariant Stray(Somes(ids)[..j], nodeids.Keys) == j
      invariant PointToProxies(nodes, keys, start, neighbors[..j], ids[..j])
    {
      var id := neighbors[j].row.id;
      StraySnoc(Somes(ids), nodeids.Keys, j);
      if id !in nodeids {
        return Some(UnexpectedForeignKey(id));
      }
      SetProxy(nodes, keys, nodeids[id], start, neighbors, ids, j);
    }
    assert Somes(ids)[..|ids|] == Somes(ids);
    return None;
  }

  ghost predicate PointToParents(nodes: seq<Account>, keys: seq<Option<int>>, start: seq<Account?>,
                                 found: seq<Account>, ids: seq<int>)
    requires |nodes| == |keys| == |start| && |found| == |ids|
    reads nodes`parent
  {
    forall i :: 0 <= i < |nodes| ==>
      nodes[i].parent == match Target(found, ids, keys[i]) case Some(n) => n case None => start[i]
  }

  method SetParent(nodes: seq<Account>, ghost keys: seq<Option<int>>, targets: seq<Account>,
                   ghost start: seq<Account?>, neighbors: seq<Account>, ghost ids: seq<int>, j: nat)
    requires |nodes| == |keys| == |start| && j < |neighbors| == |ids|
    requires targets == Pick(nodes, keys, Some(ids[j]))
    requires forall i, j :: 0 <= i < j < |nodes| && nodes[i] == nodes[j] ==> keys[i] == keys[j]
    requires PointToParents(nodes, keys, start, neighbors[..j], ids[..j])
    modifies nodes`parent
    ensures PointToParents(nodes, keys, start, neighbors[..j + 1], ids[..j + 1])
  {
    hide Pick;
    Targeted(nodes, keys, targets, Some(ids[j]));
    for i := 0 to |targets|
      invariant forall x :: x in targets[..i] ==> x.parent == neighbors[j]
      invariant forall x :: x in nodes && x !in targets ==> x.parent == old(x.parent)
    {
      assert targets[i] in targets;
      targets[i].parent := neighbors[j];
    }
    assert targets[..|targets|] == targets;
    assert neighbors[..j + 1][..j] == neighbors[..j] && ids[..j + 1][..j] == ids[..j];
  }

  /** The same for parents. */
  method AttachParents(nodes: seq<Account>, ghost keys: seq<Option<int>>, nodeids: map<int, seq<Account>>,
                       ghost start: seq<Account?>, neighbors: seq<Account>,
                       ghost ids: seq<int>) returns (err: Option<LoadError>)
    requires |nodes| == |keys| == |start| && ByKey(nodes, keys, nodeids)
    requires forall i, j :: 0 <= i < j < |nodes| && nodes[i] == nodes[j] ==> keys[i] == keys[j]
    requires forall i :: 0 <= i < |nodes| ==> nodes[i].parent == start[i]
    requires |ids| == |neighbors| && forall j :: 0 <= j < |neighbors| ==> ids[j] == neighbors[j].row.id
    modifies nodes`parent
    ensures var k := Stray(Somes(ids), nodeids.Keys);
            err == (if k == |ids| then None else Some(UnexpectedForeignKey(ids[k])))
    ensures var k := Stray(Somes(ids), nodeids.Keys); PointToParents(nodes, keys, start, neighbors[..k], ids[..k])
  {
    assert PointToParents(nodes, keys, start, neighbors[..0], ids[..0]);
    hide Stray, Received, Pick, Target, LastWith;
    for j := 0 to |neighbors|
      invariant Stray(Somes(ids)[..j], nodeids.Keys) == j
      invariant PointToParents(nodes, keys, start, neighbors[..j], ids[..j])
    {
      var id := neighbors[j].row.id;
      StraySnoc(Somes(ids), nodeids.Keys, j);
      if id !in nodeids {
        return Some(UnexpectedForeignKey(id));
      }
      SetParent(nodes, keys, nodeids[id], start, neighbors, ids, j);
    }
    assert Somes(ids)[..|ids|] == Somes(ids);
    return None;
  }

  ghost predicate PointToOwners(nodes: seq<AccountGroup>, keys: seq<Option<int>>, start: seq<Account?>,
                                found: seq<Account>, ids: seq<int>)
    requires |nodes| == |keys| == |start| && |found| == |ids|
    reads nodes`account
  {
    forall i :: 0 <= i < |nodes| ==>
      nodes[i].account == match Target(found, ids, keys[i]) case Some(n) => n case None => start[i]
  }

  method SetOwner(nodes: seq<AccountGroup>, ghost keys: seq<Option<int>>, targets: seq<AccountGroup>,
                  ghost start: seq<Account?>, neighbors: seq<Account>, ghost ids: seq<int>, j: nat)
    requires |nodes| == |keys| == |start| && j < |neighbors| == |ids|
    requires targets == Pick(nodes, keys, Some(ids[j]))
    requires forall i, j :: 0 <= i < j < |nodes| && nodes[i] == nodes[j] ==> keys[i] == keys[j]
    requires PointToOwners(nodes, keys, start, neighbors[..j], ids[..j])
    modifies nodes`account
    ensures PointToOwners(nodes, keys, start, neighbors[..j + 1], ids[..j + 1])
  {
    hide Pick;
    Targeted(nodes, keys, targets, Some(ids[j]));
    for i := 0 to |targets|
      invariant forall x :: x in targets[..i] ==> x.account == neighbors[j]
      invariant forall x :: x in nodes && x !in targets ==> x.account == old(x.account)
    {
      assert targets[i] in targets;
      targets[i].account := neighbors[j];
    }
    assert targets[..|targets|] == targets;
    assert neighbors[..j + 1][..j] == neighbors[..j] && ids[..j + 1][..j] == ids[..j];
  }

  /** The same for the account of a join row. */
  method AttachOwners(nodes: seq<AccountGroup>, ghost keys: seq<Option<int>>, nodeids: map<int, seq<AccountGroup>>,
                      ghost start: seq<Account?>, neighbors: seq<Account>,
                      ghost ids: seq<int>) returns (err: Option<LoadError>)
    requires |nodes| == |keys| == |start| && ByKey(nodes, keys, nodeids)
    requires forall i, j :: 0 <= i < j < |nodes| && nodes[i] == nodes[j] ==> keys[i] == keys[j]
    requires forall i :: 0 <= i < |nodes| ==> nodes[i].account == start[i]
    requires |ids| == |neighbors| && forall j :: 0 <= j < |neighbors| ==> ids[j] == neighbors[j].row.id
    modifies nodes`account
    ensures var k := Stray(Somes(ids), nodeids.Keys);
            err == (if k == |ids| then None else Some(UnexpectedForeignKey(ids[k])))
    ensures var k := Stray(Somes(ids), nodeids.Keys); PointToOwners(nodes, keys, start, neighbors[..k], ids[..k])
  {
    assert PointToOwners(nodes, keys, start, neighbors[..0], ids[..0]);
    hide Stray, Received, Pick, Target, LastWith;
    for j := 0 to |neighbors|
      invariant Stray(Somes(ids)[..j], nodeids.Keys) == j
      invariant PointToOwners(nodes, keys, start, neighbors[..j], ids[..j])
    {
      var id := neighbors[j].row.id;
      StraySnoc(Somes(ids), nodeids.Keys, j);
      if id !in nodeids {
        return Some(UnexpectedForeignKey(id));
      }
      SetOwner(nodes, keys, nodeids[id], start, neighbors, ids, j);
    }
    assert Somes(ids)[..|ids|] == Somes(ids);
    return None;
  }

  ghost predicate PointToGroups(nodes: seq<AccountGroup>, keys: seq<Option<int>>, start: seq<LeafNode?>,
                                found: seq<LeafNode>, ids: seq<int>)
    requires |nodes| == |keys| == |start| && |found| == |ids|
    reads nodes`group
  {
    forall i :: 0 <= i < |nodes| ==>
      nodes[i].group == match Target(found, ids, keys[i]) case Some(n) => n case None => start[i]
  }

  method SetGroup(nodes: seq<AccountGroup>, ghost keys: seq<Option<int>>, targets: seq<AccountGroup>,
                  ghost start: seq<LeafNode?>, neighbors: seq<LeafNode>, ghost ids: seq<int>, j: nat)
    requires |nodes| == |keys| == |start| && j < |neighbors| == |ids|
    requires targets == Pick(nodes, keys, Some(ids[j]))
    requires forall i, j :: 0 <= i < j < |nodes| && nodes[i] == nodes[j] ==> keys[i] == keys[j]
    requires PointToGroups(nodes, keys, start, neighbors[..j], ids[..j])
    modifies nodes`group
    ensures PointToGroups(nodes, keys, start, neighbors[..j + 1], ids[..j + 1])
  {
    hide Pick;
    Targeted(nodes, keys, targets, Some(ids[j]));
    for i := 0 to |targets|
      invariant forall x :: x in targets[..i] ==> x.group == neighbors[j]
      invariant forall x :: x in nodes && x !in targets ==> x.group == old(x.group)
    {
      assert targets[i] in targets;
      targets[i].group := neighbors[j];
    }
    assert targets[..|targets|] == targets;
    assert neighbors[..j + 1][..j] == neighbors[..j] && ids[..j + 1][..j] == ids[..j];
  }

  /** The same for the group of a join row. */
  method AttachJoinedGroups(nodes: seq<AccountGroup>, ghost keys: seq<Option<int>>,
                            nodeids: map<int, seq<AccountGroup>>, ghost start: seq<LeafNode?>,
                            neighbors: seq<LeafNode>, ghost ids: seq<int>) returns (err: Option<LoadError>)
    requires |nodes| == |keys| == |start| && ByKey(nodes, keys, nodeids)
    requires forall i, j :: 0 <= i < j < |nodes| && nodes[i] == nodes[j] ==> keys[i] == keys[j]
    requires forall i :: 0 <= i < |nodes| ==> nodes[i].group == start[i]
    requires |ids| == |neighbors| && forall j :: 0 <= j < |neighbors| ==> ids[j] == neighbors[j].row.id
    modifies nodes`group
    ensures var k := Stray(Somes(ids), nodeids.Keys);
            err == (if k == |ids| then None else Some(UnexpectedForeignKey(ids[k])))
    ensures var k := Stray(Somes(ids), nodeids.Keys); PointToGroups(nodes, keys, start, neighbors[..k], ids[..k])
  {
    assert PointToGroups(nodes, keys, start, neighbors[..0], ids[..0]);
    hide Stray, Received, Pick, Target, LastWith;
    for j := 0 to |neighbors|
      invariant Stray(Somes(ids)[..j], nodeids.Keys) == j
      invariant PointToGroups(nodes, keys, start, neighbors[..j], ids[..j])
    {
      var id := neighbors[j].row.id;
      StraySnoc(Somes(ids), nodeids.Keys, j);
      if id !in nodeids {
        return Some(UnexpectedForeignKey(id));
      }
      SetGroup(nodes, keys, nodeids[id], start, neighbors, ids, j);
    }
    assert Somes(ids)[..|ids|] == Somes(ids);
    return None;
  }

  /** Under a foreign key, the node it leads to is the owner with that id. */
  lemma {:induction false} OwnerIsUnique<N>(nodes: seq<N>, ids: seq<int>, nodeids: map<int, N>, i: nat, k: int)
    requires |nodes| == |ids| && i < |nodes| && ById(nodes, ids, nodeids) && k in nodeids
    ensures nodes[i] == nodeids[k] && ids[i] == k ==> Owns(nodes, ids, i)
    ensures Owns(nodes, ids, i) && ids[i] == k ==> nodes[i] == nodeids[k]
  {
  }

  lemma {:induction false} StraySnoc(keys: seq<Option<int>>, known: set<int>, j: nat)
    requires j < |keys| && Stray(keys[..j], known) == j
    ensures if keys[j].Some? && keys[j].value in known then Stray(keys[..j + 1], known) == j + 1
            else Stray(keys, known) == j
  {
    assert keys[..j + 1][..j] == keys[..j];
    if !(keys[j].Some? && keys[j].value in known) {
      StrayFirst(keys, known, j);
    }
  }

  lemma {:induction false} StrayFirst(keys: seq<Option<int>>, known: set<int>, j: nat)
    requires j < |keys| && !(keys[j].Some? && keys[j].value in known)
    requires forall i :: 0 <= i < j ==> keys[i].Some? && keys[i].value in known
    ensures Stray(keys, known) == j
  {
  }

  // ---- the many-to-many edge ----

  /** The accounts a stream joins to a group. */
  ghost function Members(stream: seq<(int, LeafRow)>, byID: map<int, Account>, group: int): set<Account>
    requires forall i :: 0 <= i < |stream| ==> stream[i].0 in byID
  {
    if stream == [] then {}
    else
      var n := |stream| - 1;
      if stream[n].1.id == group then Members(stream[..n], byID, group) + {byID[stream[n].0]}
      else Members(stream[..n], byID, group)
  }

  ghost predicate Collected(stream: seq<(int, LeafRow)>, byID: map<int, Account>, nids: map<int, set<Account>>)
    requires forall i :: 0 <= i < |stream| ==> stream[i].0 in byID
  {
    forall g :: if g in LeafIDs(FirstOfEachGroup(stream)) then g in nids && nids[g] == Members(stream, byID, g)
                else g !in nids && Members(stream, byID, g) == {}
  }

  ghost predicate ScannedAs(ns: seq<LeafNode>, rows: seq<LeafRow>, fields: seq<LeafColumn>)
    reads ns`row
  {
    |ns| == |rows| && forall k :: 0 <= k < |ns| ==> ns[k].row == ScanLeaf(fields, rows[k])
  }

  /** Scanning the join rows: a group becomes a node the first time it appears, and every row adds its account
      to the accounts of the group. */
  method CollectGroups(stream: seq<(int, LeafRow)>, byID: map<int, Account>, fields: seq<LeafColumn>)
    returns (neighbors: seq<LeafNode>, nids: map<int, set<Account>>)
    requires forall i :: 0 <= i < |stream| ==> stream[i].0 in byID
    ensures forall n :: n in neighbors ==> fresh(n)
    ensures ScannedAs(neighbors, FirstOfEachGroup(stream), fields)
    ensures Collected(stream, byID, nids)
  {
    neighbors, nids := [], map[];
    for i := 0 to |stream|
      invariant forall n :: n in neighbors ==> fresh(n)
      invariant ScannedAs(neighbors, FirstOfEachGroup(stream[..i]), fields)
      invariant Collected(stream[..i], byID, nids)
    {
      var outValue, inValue := stream[i].0, stream[i].1.id;
      ghost var before, after := stream[..i], stream[..i + 1];
      assert after[..i] == before;
      ghost var kept := FirstOfEachGroup(before);
      assert LeafIDs(kept + [stream[i].1]) == LeafIDs(kept) + [inValue];
      if inValue !in nids {
        nids := nids[inValue := {byID[outValue]}];
        var node := new LeafNode(ScanLeaf(fields, stream[i].1));
        neighbors := neighbors + [node];
      } else {
        nids := nids[inValue := nids[inValue] + {byID[outValue]}];
      }
    }
    assert stream[..|stream|] == stream;
  }

  /** Which of the found groups a node belongs to. */
  ghost function Flags(node: Account, groups: seq<int>, nids: map<int, set<Account>>): (flags: seq<bool>)
    ensures |flags| == |groups|
  {
    seq(|groups|, j requires 0 <= j < |groups| => groups[j] in nids && node in nids[groups[j]])
  }

  ghost predicate GivenGroups(nodes: seq<Account>, start: seq<seq<LeafNode>>, found: seq<LeafNode>, groups: seq<int>,
                              nids: map<int, set<Account>>)
    requires |nodes| == |start| && |found| == |groups|
    reads nodes`groups
  {
    forall i :: 0 <= i < |nodes| ==> nodes[i].groups == start[i] + Pick(found, Flags(nodes[i], groups, nids), true)
  }

  /** One group goes to each of its accounts, in whatever order the set yields them. */
  method GiveGroup(nodes: seq<Account>, ghost start: seq<seq<LeafNode>>, neighbors: seq<LeafNode>,
                   ghost groups: seq<int>, nids: map<int, set<Account>>, j: nat)
    requires |nodes| == |start| && j < |neighbors| == |groups| && groups[j] in nids
    requires neighbors[j].row.id == groups[j]
    requires forall x :: x in nids[groups[j]] ==> x in nodes
    requires GivenGroups(nodes, start, neighbors[..j], groups[..j], nids)
    modifies nodes`groups
    ensures GivenGroups(nodes, start, neighbors[..j + 1], groups[..j + 1], nids)
  {
    hide Pick;
    var n := neighbors[j];
    var targets := nids[n.row.id];
    ghost var all := targets;
    while targets != {}
      invariant targets <= all
      invariant forall x :: x in nodes && x in all - targets ==> x.groups == old(x.groups) + [n]
      invariant forall x :: x in nodes && x !in all - targets ==> x.groups == old(x.groups)
      decreases targets
    {
      var kn :| kn in targets;
      kn.groups := kn.groups + [n];
      targets := targets - {kn};
    }
    forall i | 0 <= i < |nodes|
      ensures nodes[i].groups == start[i] + Pick(neighbors[..j + 1], Flags(nodes[i], groups[..j + 1], nids), true)
    {
      FlagsSnoc(nodes[i], neighbors, groups, nids, j);
    }
  }

  lemma {:induction false} FlagsSnoc(node: Account, found: seq<LeafNode>, groups: seq<int>,
                                     nids: map<int, set<Account>>, j: nat)
    requires j < |found| == |groups|
    ensures Pick(found[..j + 1], Flags(node, groups[..j + 1], nids), true)
         == Pick(found[..j], Flags(node, groups[..j], nids), true)
            + (if groups[j] in nids && node in nids[groups[j]] then [found[j]] else [])
  {
    assert found[..j + 1][..j] == found[..j];
    assert Flags(node, groups[..j + 1], nids)[..j] == Flags(node, groups[..j], nids);
  }

  /** Groups go to the accounts joined to them, in the order the groups were found. */
  method AttachGroups(nodes: seq<Account>, ghost start: seq<seq<LeafNode>>, neighbors: seq<LeafNode>,
                      ghost groups: seq<int>, nids: map<int, set<Account>>) returns (err: Option<LoadError>)
    requires |nodes| == |start| && forall i :: 0 <= i < |nodes| ==> nodes[i].groups == start[i]
    requires |groups| == |neighbors| && forall j :: 0 <= j < |neighbors| ==> neighbors[j].row.id == groups[j]
    requires forall g, x :: g in nids && x in nids[g] ==> x in nodes
    modifies nodes`groups
    ensures var k := Stray(Somes(groups), nids.Keys);
            err == (if k == |groups| then None else Some(UnexpectedNode(groups[k])))
    ensures var k := Stray(Somes(groups), nids.Keys); GivenGroups(nodes, start, neighbors[..k], groups[..k], nids)
  {
    assert GivenGroups(nodes, start, neighbors[..0], groups[..0], nids);
    hide Stray, Pick;
    for j := 0 to |neighbors|
      invariant Stray(Somes(groups)[..j], nids.Keys) == j
      invariant GivenGroups(nodes, start, neighbors[..j], groups[..j], nids)
    {
      StraySnoc(Somes(groups), nids.Keys, j);
      if neighbors[j].row.id !in nids {
        return Some(UnexpectedNode(neighbors[j].row.id));
      }
      GiveGroup(nodes, start, neighbors, groups, nids, j);
    }
    assert Somes(groups)[..|groups|] == Somes(groups);
    return None;
  }
}
