/** The hash table of myglib/ghash.c, as the sector caches use it: integer keys, and chains of nodes in 241 buckets. */
module HashTable {
  import opened Bytes

  const BUCKETS: nat := 241

  datatype Node = Node(key: dword, value: seq<byte>)

  function Find(chain: seq<Node>, key: dword): Option<seq<byte>> {
    if chain == [] then None
    else if chain[0].key == key then Some(chain[0].value)
    else Find(chain[1..], key)
  }

  predicate Proper(chain: seq<Node>, bucket: nat) {
    && (forall i :: 0 <= i < |chain| ==> chain[i].key % BUCKETS == bucket)
    && (forall i, j :: 0 <= i < j < |chain| ==> chain[i].key != chain[j].key)
  }

  function NodeCount(nodes: seq<seq<Node>>): nat {
    if nodes == [] then 0 else |nodes[0]| + NodeCount(nodes[1..])
  }

  lemma {:induction false} NodeCountUpdate(nodes: seq<seq<Node>>, i: nat, chain: seq<Node>)
    requires i < |nodes|
    ensures NodeCount(nodes[i := chain]) == NodeCount(nodes) - |nodes[i]| + |chain|
    ensures |nodes[i]| <= NodeCount(nodes)
  {
    if i == 0 {
      assert nodes[i := chain][1..] == nodes[1..];
    } else {
      assert nodes[i := chain][1..] == nodes[1..][i - 1 := chain];
      NodeCountUpdate(nodes[1..], i - 1, chain);
    }
  }

  lemma {:induction false} FindAt(chain: seq<Node>, bucket: nat, i: nat)
    requires i < |chain| && Proper(chain, bucket)
    ensures Find(chain, chain[i].key) == Some(chain[i].value)
  {
    if i > 0 {
      assert chain[0].key != chain[i].key;
      FindAt(chain[1..], bucket, i - 1);
    }
  }

  lemma {:induction false} FindNone(chain: seq<Node>, key: dword)
    requires forall i :: 0 <= i < |chain| ==> chain[i].key != key
    ensures Find(chain, key) == None
  {
    if chain != [] {
      FindNone(chain[1..], key);
    }
  }

  lemma {:induction false} FindAppended(chain: seq<Node>, n: Node, key: dword)
    ensures Find(chain + [n], key) == if Find(chain, key).Some? then Find(chain, key)
                                      else if n.key == key then Some(n.value) else None
  {
    if chain == [] {
      assert chain + [n] == [n];
    } else {
      assert (chain + [n])[1..] == chain[1..] + [n];
      FindAppended(chain[1..], n, key);
    }
  }

  lemma {:induction false} FindUpdated(chain: seq<Node>, i: nat, value: seq<byte>, key: dword)
    requires i < |chain| && forall j :: 0 <= j < i ==> chain[j].key != chain[i].key
    ensures Find(chain[i := Node(chain[i].key, value)], key)
         == if key == chain[i].key then Some(value) else Find(chain, key)
  {
    if i > 0 {
      assert chain[i := Node(chain[i].key, value)][1..] == chain[1..][i - 1 := Node(chain[i].key, value)];
      FindUpdated(chain[1..], i - 1, value, key);
    } else {
      assert chain[i := Node(chain[i].key, value)][1..] == chain[1..];
    }
  }

  // ----- Removing nodes on the way through -----

  /** Call a function with a state on every node in turn, and drop those that it says are to go. */
  function Sweep<S>(chain: seq<Node>, f: (Node, S) -> (bool, S), s: S): (seq<Node>, S) {
    if chain == [] then ([], s)
    else
      var (gone, after) := f(chain[0], s);
      var (rest, end) := Sweep(chain[1..], f, after);
      (if gone then rest else [chain[0]] + rest, end)
  }

  function SweepAll<S>(nodes: seq<seq<Node>>, f: (Node, S) -> (bool, S), s: S): (seq<seq<Node>>, S) {
    if nodes == [] then ([], s)
    else
      var (chain, after) := Sweep(nodes[0], f, s);
      var (rest, end) := SweepAll(nodes[1..], f, after);
      ([chain] + rest, end)
  }

  lemma {:induction false} SweepKeeps<S>(chain: seq<Node>, f: (Node, S) -> (bool, S), s: S, bucket: nat)
    requires Proper(chain, bucket)
    ensures Proper(Sweep(chain, f, s).0, bucket)
    ensures forall n :: n in Sweep(chain, f, s).0 ==> n in chain
  {
    if chain != [] {
      var rest := Sweep(chain[1..], f, f(chain[0], s).1).0;
      SweepKeeps(chain[1..], f, f(chain[0], s).1, bucket);
      forall i | 0 <= i < |rest| ensures rest[i].key != chain[0].key {
        assert rest[i] in chain[1..];
      }
    }
  }

  lemma FirstNodeSwept<S>(chain: seq<Node>, f: (Node, S) -> (bool, S), s: S)
    ensures chain == [] ==> Sweep(chain, f, s) == ([], s)
    ensures chain != [] ==>
            var (gone, after) := f(chain[0], s);
            && Sweep(chain, f, s).0 == (if gone then [] else [chain[0]]) + Sweep(chain[1..], f, after).0
            && Sweep(chain, f, s).1 == Sweep(chain[1..], f, after).1
  {
    if chain != [] {
      var rest := Sweep(chain[1..], f, f(chain[0], s).1).0;
      assert [] + rest == rest;
    }
  }

  /** The rest of the table, bucket by bucket. */
  lemma FirstSwept<S>(nodes: seq<seq<Node>>, i: nat, f: (Node, S) -> (bool, S), s: S)
    requires i <= |nodes|
    ensures i == |nodes| ==> SweepAll(nodes[i..], f, s) == ([], s)
    ensures i < |nodes| ==>
            SweepAll(nodes[i..], f, s).0
            == [Sweep(nodes[i], f, s).0] + SweepAll(nodes[i + 1..], f, Sweep(nodes[i], f, s).1).0
    ensures i < |nodes| ==> SweepAll(nodes[i..], f, s).1 == SweepAll(nodes[i + 1..], f, Sweep(nodes[i], f, s).1).1
  {
    if i < |nodes| {
      assert nodes[i..][1..] == nodes[i + 1..];
    }
  }

  class Table {
    var nodes: seq<seq<Node>>
    var nnodes: int

    constructor ()
      ensures Valid() && nnodes == 0 && forall k: dword :: Get(k) == None
    {
      nodes, nnodes := Repeat([], BUCKETS), 0;
      new;
      NoNodes(BUCKETS);
    }

    ghost predicate Valid()
      reads this
    {
      && |nodes| == BUCKETS
      && (forall i :: 0 <= i < |nodes| ==> Proper(nodes[i], i))
      && nnodes == NodeCount(nodes)
    }

    /** The table as a map. */
    ghost function Get(key: dword): Option<seq<byte>>
      requires Valid()
      reads this
    {
      Find(nodes[key % BUCKETS], key)
    }

    method LookupNode(key: dword) returns (i: nat)
      requires Valid()
      ensures i <= |nodes[key % BUCKETS]|
      ensures forall j :: 0 <= j < i ==> nodes[key % BUCKETS][j].key != key
      ensures i < |nodes[key % BUCKETS]| ==> nodes[key % BUCKETS][i].key == key
    {
      i := 0;
      while i < |nodes[key % BUCKETS]| && nodes[key % BUCKETS][i].key != key
        invariant i <= |nodes[key % BUCKETS]|
        invariant forall j :: 0 <= j < i ==> nodes[key % BUCKETS][j].key != key
      {
        i := i + 1;
      }
    }

    method Lookup(key: dword) returns (value: Option<seq<byte>>)
      requires Valid()
      ensures value == Get(key)
    {
      var i := LookupNode(key);
      var chain := nodes[key % BUCKETS];
      if i < |chain| {
        FindAt(chain, key % BUCKETS, i);
        value := Some(chain[i].value);
      } else {
        FindNone(chain, key);
        value := None;
      }
    }

    method Insert(key: dword, value: seq<byte>)
      requires Valid()
      modifies this
      ensures Valid()
      ensures forall k: dword :: Get(k) == if k == key then Some(value) else old(Get(k))
      ensures nnodes == old(nnodes) + if old(Get(key)).Some? then 0 else 1
    {
      var b := key % BUCKETS;
      var i := LookupNode(key);
      var chain := nodes[b];
      if i < |chain| {
        FindAt(chain, b, i);
        NodeCountUpdate(nodes, b, chain[i := Node(chain[i].key, value)]);
        forall k: dword {
          FindUpdated(chain, i, value, k);
        }
        nodes := nodes[b := chain[i := Node(chain[i].key, value)]];
      } else {
        FindNone(chain, key);
        NodeCountUpdate(nodes, b, chain + [Node(key, value)]);
        forall k: dword {
          FindAppended(chain, Node(key, value), k);
        }
        nodes := nodes[b := chain + [Node(key, value)]];
        nnodes := nnodes + 1;
      }
    }

    /** Every node is visited once, in order, whether or not removing the head of a chain restarts the chain. */
    method ForeachRemove<S>(f: (Node, S) -> (bool, S), start: S) returns (s: S, deleted: nat)
      requires Valid()
      modifies this
      ensures Valid()
      ensures nodes == SweepAll(old(nodes), f, start).0 && s == SweepAll(old(nodes), f, start).1
      ensures nnodes == old(nnodes) - deleted
    {
      hide Proper, NodeCount, Sweep, SweepAll;
      ghost var was := nodes;
      s, deleted := start, 0;
      var i := 0;
      assert was[0..] == was;
      assert nodes[..0] + SweepAll(was, f, start).0 == SweepAll(was, f, start).0;
      while i < BUCKETS
        invariant i <= BUCKETS && Valid() && nnodes == old(nnodes) - deleted
        invariant nodes[i..] == was[i..]
        invariant SweepAll(was, f, start).0 == nodes[..i] + SweepAll(was[i..], f, s).0
        invariant SweepAll(was, f, start).1 == SweepAll(was[i..], f, s).1
      {
        ghost var done := nodes[..i];
        FirstSwept(was, i, f, s);
        assert nodes[i] == was[i] by { assert nodes[i..][0] == was[i..][0]; }
        var removed;
        s, removed := SweepBucket(i, f, s);
        deleted := deleted + removed;
        assert nodes[..i + 1] == done + [nodes[i]];
        Assoc(done, [nodes[i]], SweepAll(was[i + 1..], f, s).0);
        assert nodes[i + 1..] == was[i + 1..];
        i := i + 1;
      }
      FirstSwept(was, i, f, s);
      assert nodes[..i] + [] == nodes;
    }

    method SweepBucket<S>(i: nat, f: (Node, S) -> (bool, S), start: S) returns (s: S, deleted: nat)
      requires Valid() && i < BUCKETS
      modifies this
      ensures Valid()
      ensures nodes == old(nodes)[i := Sweep(old(nodes)[i], f, start).0] && s == Sweep(old(nodes)[i], f, start).1
      ensures nnodes == old(nnodes) - deleted
    {
      hide Sweep, Proper, NodeCount;
      ghost var was := nodes;
      s, deleted := start, 0;
      var node := 0;
      ghost var rest := nodes[i];
      assert nodes == was[i := nodes[i]];
      while node < |nodes[i]|
        invariant |nodes| == BUCKETS && node <= |nodes[i]| && rest == nodes[i][node..]
        invariant nodes == was[i := nodes[i]]
        invariant nnodes == old(nnodes) - deleted && nnodes == NodeCount(nodes)
        invariant Sweep(was[i], f, start).0 == nodes[i][..node] + Sweep(rest, f, s).0
        invariant Sweep(was[i], f, start).1 == Sweep(rest, f, s).1
        decreases |rest|
      {
        var chain := nodes[i];
        FirstNodeSwept(rest, f, s);
        var (gone, after) := f(chain[node], s);
        s := after;
        if gone {
          deleted, nnodes := deleted + 1, nnodes - 1;
          NodeCountUpdate(nodes, i, chain[..node] + chain[node + 1..]);
          if node > 0 {
            nodes := nodes[i := chain[..node] + chain[node + 1..]];
          } else {
            nodes := nodes[i := chain[1..]];
            assert chain[..node] + chain[node + 1..] == chain[1..];
            node := 0;
          }
          assert nodes[i][node..] == rest[1..] && nodes[i][..node] == chain[..node];
        } else {
          node := node + 1;
          assert chain[..node] == chain[..node - 1] + [chain[node - 1]];
        }
        rest := rest[1..];
      }
      FirstNodeSwept(rest, f, s);
      assert nodes[i][..node] + [] == nodes[i];
      assert nodes[i] == Sweep(was[i], f, start).0;
      SweepKeeps(was[i], f, start, i);
    }
  }

  lemma {:induction false} NoNodes(n: nat)
    ensures NodeCount(Repeat([], n)) == 0
  {
    if n > 0 {
      var none: seq<seq<Node>> := Repeat([], n);
      assert none[1..] == Repeat([], n - 1);
      NoNodes(n - 1);
    }
  }
}
