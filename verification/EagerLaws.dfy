/** Consequences of eager loading that a caller can rely on: the order and uniqueness of many-to-many groups,
    conservation of the rows that are handed out, and the foreign key index. */
module EagerLaws {
  import opened Basics
  import opened EagerModel
  import opened EagerSpec
  import opened EagerNaive
  import opened EagerGroups
  import opened Nodes
  import opened EagerAttach

  // ======== streams of many-to-many rows, however they repeat ========

  function StreamIDs(stream: seq<(int, LeafRow)>): (ids: seq<int>)
    ensures |ids| == |stream|
  {
    seq(|stream|, i requires 0 <= i < |stream| => stream[i].1.id)
  }

  /** Groups come in the order of their first row, each once. */
  lemma {:induction false} GroupsByFirstAppearance(stream: seq<(int, LeafRow)>)
    ensures LeafIDs(FirstOfEachGroup(stream)) == FirstAppearances(StreamIDs(stream))
  {
    if stream != [] {
      var n := |stream| - 1;
      GroupsByFirstAppearance(stream[..n]);
      assert StreamIDs(stream)[..n] == StreamIDs(stream[..n]);
      var kept := FirstOfEachGroup(stream[..n]);
      assert LeafIDs(kept + [stream[n].1]) == LeafIDs(kept) + [stream[n].1.id];
    }
  }

  /** A row that was already there changes nothing for any account. */
  lemma {:induction false} RepeatedRow(s: seq<(int, LeafRow)>, t: seq<(int, LeafRow)>, p: (int, LeafRow),
                                       account: int, fields: seq<LeafColumn>)
    requires p in s
    ensures GroupsFrom(s + [p] + t, account, fields) == GroupsFrom(s + t, account, fields)
  {
    FirstWithRepeat(s, t, p);
    var a, b := s + [p] + t, s + t;
    var i :| 0 <= i < |s| && s[i] == p;
    forall g ensures Joined(a, account, g) <==> Joined(b, account, g) {
      if j :| 0 <= j < |a| && a[j].0 == account && a[j].1.id == g {
        var k := if j == |s| then i else if j < |s| then j else j - 1;
        assert b[k] == a[j];
      }
      if j :| 0 <= j < |b| && b[j].0 == account && b[j].1.id == g {
        assert a[if j < |s| then j else j + 1] == b[j];
      }
    }
    FilterSame(FirstOfEachGroup(a), JoinedTo(a, account), JoinedTo(b, account));
  }

  lemma {:induction false} FirstWithRepeat(s: seq<(int, LeafRow)>, t: seq<(int, LeafRow)>, p: (int, LeafRow))
    requires p in s
    ensures FirstOfEachGroup(s + [p] + t) == FirstOfEachGroup(s + t)
  {
    if t == [] {
      assert s + [p] + t == s + [p] && s + t == s && (s + [p])[..|s|] == s;
      FirstIDs(s, p.1.id);
    } else {
      var n := |t| - 1;
      FirstWithRepeat(s, t[..n], p);
      assert (s + [p] + t)[..|s| + 1 + n] == s + [p] + t[..n];
      assert (s + t)[..|s| + n] == s + t[..n];
    }
  }

  // ======== conservation ========

  /** Picking keeps the picked elements in order: their positions are increasing, and are all the positions
      of the key. */
  lemma {:induction false} PickKeepsOrder<T, K>(xs: seq<T>, ks: seq<K>, k: K) returns (at: seq<nat>)
    requires |xs| == |ks|
    ensures |at| == |Pick(xs, ks, k)|
    ensures forall i :: 0 <= i < |at| ==> at[i] < |xs| && ks[at[i]] == k && Pick(xs, ks, k)[i] == xs[at[i]]
    ensures forall i, j :: 0 <= i < j < |at| ==> at[i] < at[j]
    ensures forall p :: 0 <= p < |xs| && ks[p] == k ==> p in at
  {
    at := [];
    if xs != [] {
      var n := |xs| - 1;
      at := PickKeepsOrder(xs[..n], ks[..n], k);
      assert forall p :: 0 <= p < n ==> ks[..n][p] == ks[p];
      if ks[n] == k {
        at := at + [n];
      }
    }
  }

  /** Where nodes share an id, the last of them stands for it. */
  lemma {:induction false} OwnsIffLast<N>(nodes: seq<N>, ids: seq<int>, i: nat)
    requires |nodes| == |ids| && i < |nodes| && (forall j, k :: 0 <= j < k < |nodes| ==> nodes[j] != nodes[k])
    ensures Owns(nodes, ids, i) <==> forall j :: i < j < |ids| ==> ids[j] != ids[i]
  {
    var last := LastPosition(nodes, ids, ids[i]);
  }

  lemma {:induction false} LastPosition<N>(nodes: seq<N>, ids: seq<int>, id: int) returns (p: nat)
    requires |nodes| == |ids| && id in ids
    ensures p < |ids| && ids[p] == id && LastWith(nodes, ids, id) == Some(nodes[p])
    ensures forall j :: p < j < |ids| ==> ids[j] != id
  {
    var n := |ids| - 1;
    if ids[n] == id {
      p := n;
    } else {
      assert ids == ids[..n] + [ids[n]];
      p := LastPosition(nodes[..n], ids[..n], id);
      assert forall j :: p < j < n ==> ids[..n][j] == ids[j];
    }
  }

  function Concat<T>(lists: seq<seq<T>>): seq<T> {
    if lists == [] then [] else Concat(lists[..|lists| - 1]) + lists[|lists| - 1]
  }

  /** Appending to one list of many adds one element to them all. */
  lemma {:induction false} ConcatGrows<T>(lists: seq<seq<T>>, at: nat, x: T)
    requires at < |lists|
    ensures multiset(Concat(lists[at := lists[at] + [x]])) == multiset(Concat(lists)) + multiset{x}
  {
    var n := |lists| - 1;
    var init, longer := lists[..n], lists[at := lists[at] + [x]];
    if at == n {
      assert longer[..n] == init;
      assert Concat(longer) == Concat(lists) + [x];
    } else {
      ConcatGrows(init, at, x);
      assert longer[..n] == init[at := init[at] + [x]];
      assert longer[n] == lists[n];
    }
  }

  lemma {:induction false} ConcatEmpty<T>(lists: seq<seq<T>>)
    requires forall i :: 0 <= i < |lists| ==> lists[i] == []
    ensures Concat(lists) == []
  {
    if lists != [] {
      ConcatEmpty(lists[..|lists| - 1]);
    }
  }

  /** What every node receives of the found rows. */
  ghost function Handed<N, T>(nodes: seq<N>, ids: seq<int>, found: seq<T>, keys: seq<Option<int>>): seq<seq<T>>
    requires |nodes| == |ids| && |found| == |keys|
  {
    seq(|nodes|, i requires 0 <= i < |nodes| => Received(nodes, ids, i, found, keys))
  }

  /** Rows whose keys all lead to a node are handed out completely and once: together the nodes hold a
      permutation of the rows. */
  lemma {:induction false} NothingLostOrDoubled<N, T>(nodes: seq<N>, ids: seq<int>, found: seq<T>,
                                                      keys: seq<Option<int>>)
    requires |nodes| == |ids| && |found| == |keys| && (forall j, k :: 0 <= j < k < |nodes| ==> nodes[j] != nodes[k])
    requires forall j :: 0 <= j < |keys| ==> keys[j].Some? && keys[j].value in ids
    ensures multiset(Concat(Handed(nodes, ids, found, keys))) == multiset(found)
  {
    hide Owns, Pick, Handed, Concat;
    if found == [] {
      NothingHanded(nodes, ids, found, keys);
    } else {
      var m := |found| - 1;
      NothingLostOrDoubled(nodes, ids, found[..m], keys[..m]);
      var owner := OneMoreHanded(nodes, ids, found, keys);
      ConcatGrows(Handed(nodes, ids, found[..m], keys[..m]), owner, found[m]);
      LastCounts(found);
    }
  }

  lemma {:induction false} NothingHanded<N, T>(nodes: seq<N>, ids: seq<int>, found: seq<T>, keys: seq<Option<int>>)
    requires |nodes| == |ids| && |found| == |keys| == 0
    ensures Concat(Handed(nodes, ids, found, keys)) == []
  {
    hide Owns, Pick;
    var handed := Handed(nodes, ids, found, keys);
    forall i | 0 <= i < |nodes| ensures handed[i] == [] {
      NoneReceived(nodes, ids, i, found, keys);
      assert found[..0] == found && keys[..0] == keys;
    }
    ConcatEmpty(handed);
  }

  lemma {:induction false} LastCounts<T>(xs: seq<T>)
    requires xs != []
    ensures multiset(xs) == multiset(xs[..|xs| - 1]) + multiset{xs[|xs| - 1]}
  {
    assert xs == xs[..|xs| - 1] + [xs[|xs| - 1]];
  }

  lemma {:induction false} Owner<N>(nodes: seq<N>, ids: seq<int>, id: int) returns (owner: nat)
    requires |nodes| == |ids| && id in ids && (forall j, k :: 0 <= j < k < |nodes| ==> nodes[j] != nodes[k])
    ensures owner < |nodes|
    ensures forall i :: 0 <= i < |nodes| ==> (Owns(nodes, ids, i) && ids[i] == id <==> i == owner)
  {
    hide Owns;
    owner := LastPosition(nodes, ids, id);
    forall i | 0 <= i < |nodes| ensures Owns(nodes, ids, i) && ids[i] == id <==> i == owner {
      OwnsIffLast(nodes, ids, i);
    }
  }

  /** One more row goes to the owner of its key and to no other node. */
  lemma {:induction false} OneMoreHanded<N, T>(nodes: seq<N>, ids: seq<int>, found: seq<T>,
                                               keys: seq<Option<int>>) returns (owner: nat)
    requires |nodes| == |ids| && |found| == |keys| > 0 && (forall j, k :: 0 <= j < k < |nodes| ==> nodes[j] != nodes[k])
    requires keys[|keys| - 1].Some? && keys[|keys| - 1].value in ids
    ensures owner < |nodes| && owner < |Handed(nodes, ids, found[..|found| - 1], keys[..|keys| - 1])|
    ensures var before := Handed(nodes, ids, found[..|found| - 1], keys[..|keys| - 1]);
            Handed(nodes, ids, found, keys) == before[owner := before[owner] + [found[|found| - 1]]]
  {
    hide Owns, Received;
    var m := |found| - 1;
    owner := Owner(nodes, ids, keys[m].value);
    assert found[..m + 1] == found && keys[..m + 1] == keys;
    var before, after := Handed(nodes, ids, found[..m], keys[..m]), Handed(nodes, ids, found, keys);
    forall i | 0 <= i < |nodes| ensures after[i] == if i == owner then before[i] + [found[m]] else before[i] {
      ReceivedSnoc(nodes, ids, i, found, keys, m);
      assert after[i] == before[i] + (if i == owner then [found[m]] else []);
    }
    assert after == before[owner := before[owner] + [found[m]]];
  }

  ghost function ChildLists(nodes: seq<Account>): (lists: seq<seq<Account>>)
    reads nodes`children
    ensures |lists| == |nodes| && forall i :: 0 <= i < |nodes| ==> lists[i] == nodes[i].children
  {
    if nodes == [] then [] else ChildLists(nodes[..|nodes| - 1]) + [nodes[|nodes| - 1].children]
  }

  /** So it is for the children after loadChildren: no child is lost, none is attached twice, and a node whose id
      is repeated further on stays without children. */
  lemma {:induction false} ChildrenConserved(nodes: seq<Account>, ids: seq<int>, neighbors: seq<Account>,
                                             keys: seq<Option<int>>, start: seq<seq<Account>>)
    requires |nodes| == |ids| == |start| && |neighbors| == |keys|
             && (forall j, k :: 0 <= j < k < |nodes| ==> nodes[j] != nodes[k])
    requires forall i :: 0 <= i < |start| ==> start[i] == []
    requires forall j :: 0 <= j < |keys| ==> keys[j].Some? && keys[j].value in ids
    requires GivenChildren(nodes, ids, start, neighbors, keys)
    ensures multiset(Concat(ChildLists(nodes))) == multiset(neighbors)
    ensures forall i, j :: 0 <= i < j < |nodes| && ids[i] == ids[j] ==> nodes[i].children == []
  {
    hide Received, Owns;
    var handed := Handed(nodes, ids, neighbors, keys);
    forall i | 0 <= i < |nodes| ensures nodes[i].children == handed[i] {
      assert nodes[i].children == [] + handed[i];
    }
    assert ChildLists(nodes) == handed;
    NothingLostOrDoubled(nodes, ids, neighbors, keys);
    forall i, j | 0 <= i < j < |nodes| && ids[i] == ids[j] ensures nodes[i].children == [] {
      OwnsIffLast(nodes, ids, i);
      NotOwning(nodes, ids, i, neighbors, keys);
    }
  }

  lemma {:induction false} NotOwning<N, T>(nodes: seq<N>, ids: seq<int>, i: nat, found: seq<T>, keys: seq<Option<int>>)
    requires |nodes| == |ids| && i < |nodes| && |found| == |keys| && !Owns(nodes, ids, i)
    ensures Received(nodes, ids, i, found, keys) == []
  {
  }

  // ---- foreign keys ----

  /** The ids asked for by a many-to-one load are without duplicates. */
  lemma {:induction false} PresentKeysDistinct(keys: seq<Option<int>>)
    ensures Distinct(PresentKeys(keys))
  {
    if keys != [] {
      PresentKeysDistinct(keys[..|keys| - 1]);
    }
  }

  /** The nodes that have a key at all. */
  function Keyed<N>(nodes: seq<N>, keys: seq<Option<int>>): seq<N>
    requires |nodes| == |keys|
  {
    if nodes == [] then []
    else
      var n := |nodes| - 1;
      if keys[n].Some? then Keyed(nodes[..n], keys[..n]) + [nodes[n]] else Keyed(nodes[..n], keys[..n])
  }

  function Buckets<N>(nodes: seq<N>, keys: seq<Option<int>>, ids: seq<int>): (buckets: seq<seq<N>>)
    requires |nodes| == |keys|
    ensures |buckets| == |ids|
  {
    seq(|ids|, j requires 0 <= j < |ids| => Pick(nodes, keys, Some(ids[j])))
  }

  /** The index by foreign key splits the nodes that have a key, and no others, among the ids asked for. */
  lemma {:induction false} BucketsPartition<N>(nodes: seq<N>, keys: seq<Option<int>>)
    requires |nodes| == |keys|
    ensures multiset(Concat(Buckets(nodes, keys, PresentKeys(keys)))) == multiset(Keyed(nodes, keys))
  {
    hide Pick, Concat, Buckets;
    if nodes == [] {
      NoBuckets(nodes, keys);
    } else {
      var n := |nodes| - 1;
      BucketsPartition(nodes[..n], keys[..n]);
      if keys[n].None? {
        BucketsGrow(nodes, keys, PresentKeys(keys[..n]));
      } else if keys[n].value in PresentKeys(keys[..n]) {
        OldBucket(nodes, keys);
      } else {
        PresentKeysComplete(keys[..n], keys[n].value);
        NewBucket(nodes, keys, PresentKeys(keys[..n]));
      }
    }
  }

  lemma {:induction false} NoBuckets<N>(nodes: seq<N>, keys: seq<Option<int>>)
    requires |nodes| == |keys| == 0
    ensures Concat(Buckets(nodes, keys, PresentKeys(keys))) == []
  {
    ConcatEmpty(Buckets(nodes, keys, PresentKeys(keys)));
  }

  lemma {:induction false} OldBucket<N>(nodes: seq<N>, keys: seq<Option<int>>)
    requires |nodes| == |keys| > 0 && keys[|keys| - 1].Some?
             && keys[|keys| - 1].value in PresentKeys(keys[..|keys| - 1])
    ensures var ids := PresentKeys(keys[..|keys| - 1]);
            multiset(Concat(Buckets(nodes, keys, ids)))
            == multiset(Concat(Buckets(nodes[..|nodes| - 1], keys[..|keys| - 1], ids))) + multiset{nodes[|nodes| - 1]}
  {
    hide Pick, Concat, PresentKeys;
    var n := |nodes| - 1;
    var ids := PresentKeys(keys[..n]);
    PresentKeysDistinct(keys[..n]);
    BucketsGrow(nodes, keys, ids);
    var at :| 0 <= at < |ids| && ids[at] == keys[n].value;
    var lists := Buckets(nodes[..n], keys[..n], ids);
    assert Buckets(nodes, keys, ids) == lists[at := lists[at] + [nodes[n]]];
    ConcatGrows(lists, at, nodes[n]);
  }

  lemma {:induction false} BucketsGrow<N>(nodes: seq<N>, keys: seq<Option<int>>, ids: seq<int>)
    requires |nodes| == |keys| > 0
    ensures var n := |nodes| - 1;
            forall j :: 0 <= j < |ids| ==>
              Buckets(nodes, keys, ids)[j]
              == if keys[n] == Some(ids[j]) then Buckets(nodes[..n], keys[..n], ids)[j] + [nodes[n]]
                 else Buckets(nodes[..n], keys[..n], ids)[j]
    ensures keys[|nodes| - 1].None? ==>
              Buckets(nodes, keys, ids) == Buckets(nodes[..|nodes| - 1], keys[..|nodes| - 1], ids)
  {
  }

  lemma {:induction false} NewBucket<N>(nodes: seq<N>, keys: seq<Option<int>>, ids: seq<int>)
    requires |nodes| == |keys| > 0 && keys[|keys| - 1].Some? && keys[|keys| - 1].value !in ids
    requires keys[|keys| - 1] !in keys[..|keys| - 1]
    ensures Concat(Buckets(nodes, keys, ids + [keys[|keys| - 1].value]))
         == Concat(Buckets(nodes[..|nodes| - 1], keys[..|keys| - 1], ids)) + [nodes[|nodes| - 1]]
  {
    var n := |nodes| - 1;
    var k := keys[n].value;
    var after := Buckets(nodes, keys, ids + [k]);
    BucketsGrow(nodes, keys, ids);
    PickAbsent(nodes[..n], keys[..n], Some(k));
    assert after[..|ids|] == Buckets(nodes[..n], keys[..n], ids);
    assert after[|ids|] == [nodes[n]];
  }
}
