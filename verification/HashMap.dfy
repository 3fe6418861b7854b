/** The runtime map: buckets of singly linked nodes on the heap. */
module HashMap {
  import opened Options
  import opened Sequences
  import opened HashMapModel

  /** The largest value of a C `int`, the type of the bucket count handed to the growing step. */
  const INT_MAX := 0x7FFF_FFFF

  /** One more than the largest value of a C `unsigned`. */
  const UNSIGNED_RANGE := 0x1_0000_0000

  class Node<K, V> {
    const hash: nat
    const key: K
    var value: V
    var next: Node?<K, V>

    constructor (key: K, value: V, hash: nat)
      ensures this.key == key && this.value == value && this.hash == hash
    {
      this.key, this.value, this.hash, this.next := key, value, hash, null;
    }
  }

  /** `head` starts a list of exactly the nodes of `c`, in this order, that ends in null. */
  ghost predicate Linked<K, V>(head: Node?<K, V>, c: seq<Node<K, V>>)
    reads c`next
  {
    && head == At(c, 0)
    && forall j :: 0 <= j < |c| ==> c[j].next == At(c, j + 1)
  }

  /** The node at a position, or null behind the last one. */
  ghost function At<K, V>(c: seq<Node<K, V>>, j: nat): Node?<K, V> { if j < |c| then c[j] else null }


  /** The link is the one that points to position `j` of the chain of bucket `i`. */
  ghost predicate LinkAt<K, V>(link: Link<K, V>, c: seq<Node<K, V>>, i: nat, j: nat) {
    && j < |c|
    && !link.NoLink?
    && (link.InBucket? ==> link.i == i && j == 0)
    && (link.InNode? ==> j > 0 && link.prev == c[j - 1])
  }

  lemma NextInChain<K, V>(head: Node?<K, V>, c: seq<Node<K, V>>, j: nat)
    requires Linked(head, c) && j < |c|
    ensures c[j].next == At(c, j + 1)
  {}

  lemma LinkInFront<K, V>(node: Node<K, V>, c: seq<Node<K, V>>)
    requires Linked(node.next, c)
    ensures Linked(node, [node] + c)
  {
    var d := [node] + c;
    forall j | 0 <= j < |d| ensures d[j].next == At(d, j + 1) {
      if j > 0 {
        NextInChain(node.next, c, j - 1);
      }
    }
  }

  /** A list with its node at position `j` skipped by the link before it. */
  lemma SkipLinked<K, V>(head: Node?<K, V>, c: seq<Node<K, V>>, j: nat)
    requires j < |c| && head == (if j == 0 then At(c, 1) else c[0])
    requires forall x :: 0 <= x < |c| ==> c[x].next == At(c, if x + 1 == j then j + 1 else x + 1)
    ensures Linked(head, Cut(c, j))
  {
    var d := Cut(c, j);
    forall x | 0 <= x < |d| ensures d[x].next == At(d, x + 1) {
      assert d[x] == c[if x < j then x else x + 1];
    }
  }

  /** Where `*next` of the C code lives: in a bucket or in a node. */
  datatype Link<K, V> = NoLink | InBucket(i: nat) | InNode(prev: Node<K, V>)

  /** An iterator: a bucket number that wraps around, and the node it stands on. */
  class Iter<K, V> {
    var bucketIdx: nat
    var node: Node?<K, V>

    /** The iterator starts at unsigned -1. */
    constructor ()
      ensures bucketIdx == 0xFFFF_FFFF && node == null
    {
      bucketIdx, node := UNSIGNED_RANGE - 1, null;
    }
  }

  /** The node belongs in bucket `i` of `n` and is the one stored under its key. */
  ghost predicate Home<K, V>(hashFn: K -> nat, n: nat, index: map<K, Node<K, V>>, nd: Node<K, V>, i: nat) {
    && nd.key in index && index[nd.key] == nd
    && nd.hash == hashFn(nd.key) && PowerOfTwo(n) && BucketIdx(nd.hash, n) == i
  }

  /** Every node sits once, in the bucket of its hash, and `index` finds it under its own key. */
  ghost predicate Placed<K, V>(hashFn: K -> nat, n: nat, chains: seq<seq<Node<K, V>>>, index: map<K, Node<K, V>>) {
    && |chains| == n
    && (forall i, nd :: 0 <= i < n && nd in chains[i] ==> Home(hashFn, n, index, nd, i))
    && (forall i :: 0 <= i < n ==> NoDup(chains[i]))
    && (forall k :: k in index ==> index[k].key == k && Holds(chains, index[k]))
  }

  /** A stored key is stored in the bucket of its hash. */
  lemma KeyInBucket<K, V>(hashFn: K -> nat, n: nat, chains: seq<seq<Node<K, V>>>, index: map<K, Node<K, V>>, key: K)
    requires Placed(hashFn, n, chains, index) && key in index
    ensures PowerOfTwo(n) && index[key] in chains[BucketIdx(hashFn(key), n)]
  {
    var x :| 0 <= x < |chains| && index[key] in chains[x];
    assert Home(hashFn, n, index, index[key], x);
  }

  /** What a bucket says about a key. */
  lemma InBucketOfKey<K, V>(hashFn: K -> nat, n: nat, chains: seq<seq<Node<K, V>>>, index: map<K, Node<K, V>>, key: K)
    requires Placed(hashFn, n, chains, index) && n > 0 && PowerOfTwo(n)
    ensures var c := chains[BucketIdx(hashFn(key), n)];
            && (key in index <==> exists nd :: nd in c && nd.key == key)
            && forall nd :: nd in c ==> nd.hash == hashFn(nd.key) && nd.key in index && index[nd.key] == nd
  {
    var i := BucketIdx(hashFn(key), n);
    forall nd | nd in chains[i] ensures nd.hash == hashFn(nd.key) && nd.key in index && index[nd.key] == nd {
      assert Home(hashFn, n, index, nd, i);
    }
    if key in index {
      KeyInBucket(hashFn, n, chains, index, key);
    }
  }

  lemma PlacedIsDisjoint<K, V>(hashFn: K -> nat, n: nat, chains: seq<seq<Node<K, V>>>, index: map<K, Node<K, V>>)
    requires Placed(hashFn, n, chains, index)
    ensures Disjoint(chains)
  {
    assert forall i, nd :: 0 <= i < n && nd in chains[i] ==> PowerOfTwo(n) && BucketIdx(nd.hash, n) == i;
  }

  function Cut<N>(c: seq<N>, j: nat): seq<N>
    requires j < |c|
  {
    c[..j] + c[j + 1..]
  }

  lemma CutAmong<N>(c: seq<N>, j: nat)
    requires j < |c|
    ensures forall nd :: nd in Cut(c, j) ==> nd in c
  {}

  lemma CutHolds<N>(c: seq<N>, j: nat, nd: N)
    requires j < |c| && NoDup(c)
    ensures nd in Cut(c, j) <==> nd in c && nd != c[j]
    ensures NoDup(Cut(c, j))
  {
    if nd in c && nd != c[j] {
      var x :| 0 <= x < |c| && c[x] == nd;
      assert Cut(c, j)[if x < j then x else x - 1] == nd;
    }
  }

  /** Taking one node out of its chain and its key out of the index. */
  lemma PlacedWithout<K, V>(hashFn: K -> nat, n: nat, chains: seq<seq<Node<K, V>>>, index: map<K, Node<K, V>>, i: nat,
                            j: nat, chains': seq<seq<Node<K, V>>>, index': map<K, Node<K, V>>)
    requires Placed(hashFn, n, chains, index) && i < n && j < |chains[i]|
    requires chains' == chains[i := Cut(chains[i], j)] && index' == index - {chains[i][j].key}
    ensures Placed(hashFn, n, chains', index')
  {
    var node := chains[i][j];
    assert node in chains[i] && Home(hashFn, n, index, node, i);
    forall nd ensures nd in Cut(chains[i], j) <==> nd in chains[i] && nd != node {
      CutHolds(chains[i], j, nd);
    }
    CutHolds(chains[i], j, node);
    forall x, nd | 0 <= x < n && nd in chains'[x] ensures Home(hashFn, n, index', nd, x) {
      assert Home(hashFn, n, index, nd, x);
    }
    forall k | k in index' ensures index'[k].key == k && Holds(chains', index'[k]) {
      var x :| 0 <= x < |chains| && index[k] in chains[x];
      assert index[k] in chains'[x];
    }
  }

  // ----- collecting all nodes in one list and spreading them again -----

  /** Each node of `acc` sits once, in the bucket of its hash among `n`; there are no other nodes. */
  ghost predicate Spread<K, V>(chains: seq<seq<Node<K, V>>>, acc: seq<Node<K, V>>, n: nat) {
    && |chains| == n && PowerOfTwo(n)
    && (forall i, nd :: 0 <= i < n && nd in chains[i] ==> nd in acc && BucketIdx(nd.hash, n) == i)
    && (forall i :: 0 <= i < n ==> NoDup(chains[i]))
    && (forall nd :: nd in acc ==> nd in chains[BucketIdx(nd.hash, n)])
  }

  lemma SpreadPush<K, V>(chains: seq<seq<Node<K, V>>>, acc: seq<Node<K, V>>, n: nat, node: Node<K, V>,
                         chains': seq<seq<Node<K, V>>>)
    requires Spread(chains, acc, n) && node !in acc
    requires var i := BucketIdx(node.hash, n); chains' == chains[i := [node] + chains[i]]
    ensures Spread(chains', acc + [node], n)
  {
    var i := BucketIdx(node.hash, n);
    NoDupAppend([node], chains[i]);
  }

  /** Spreading the nodes of an arranged map over other buckets arranges it again. */
  lemma PlacedAgain<K, V>(hashFn: K -> nat, n: nat, chains: seq<seq<Node<K, V>>>, index: map<K, Node<K, V>>,
                          chains': seq<seq<Node<K, V>>>, n': nat)
    requires Placed(hashFn, n, chains, index) && Spread(chains', Drained(chains, 0), n')
    ensures Placed(hashFn, n', chains', index)
  {
    forall i, nd | 0 <= i < n' && nd in chains'[i] ensures Home(hashFn, n', index, nd, i) {
      DrainedHolds(chains, 0, nd);
      var x :| 0 <= x < |chains| && nd in chains[x];
      assert Home(hashFn, n, index, nd, x);
    }
    forall k | k in index ensures index[k].key == k && Holds(chains', index[k]) {
      DrainedHolds(chains, 0, index[k]);
    }
  }

  /** Putting a node with a new key in front of its bucket. */
  lemma PlacedWith<K, V>(hashFn: K -> nat, n: nat, chains: seq<seq<Node<K, V>>>, index: map<K, Node<K, V>>,
                         node: Node<K, V>, chains': seq<seq<Node<K, V>>>)
    requires Placed(hashFn, n, chains, index) && n > 0 && PowerOfTwo(n)
    requires node.key !in index && node.hash == hashFn(node.key)
    requires var i := BucketIdx(node.hash, n); chains' == chains[i := [node] + chains[i]]
    ensures Placed(hashFn, n, chains', index[node.key := node])
    ensures !Holds(chains, node)
  {
    var b := BucketIdx(node.hash, n);
    var index' := index[node.key := node];
    forall i, nd | 0 <= i < n && nd in chains[i] ensures Home(hashFn, n, index', nd, i) && nd != node {
      assert Home(hashFn, n, index, nd, i);
    }
    NoDupAppend([node], chains[b]);
    forall k | k in index' ensures index'[k].key == k && Holds(chains', index'[k]) {
      if k == node.key {
        assert node in chains'[b];
      } else {
        var x :| 0 <= x < |chains| && index[k] in chains[x];
        assert index[k] in chains'[x];
      }
    }
  }

  /** The keys of the nodes in the order of iteration are the stored keys, each once. */
  lemma KeysInOrder<K, V>(hashFn: K -> nat, n: nat, chains: seq<seq<Node<K, V>>>, index: map<K, Node<K, V>>, keys: seq<K>)
    requires Placed(hashFn, n, chains, index)
    requires var all := InOrder(chains); |keys| == |all| && forall x :: 0 <= x < |keys| ==> keys[x] == all[x].key
    ensures NoDup(keys) && forall k :: k in keys <==> k in index
  {
    var all := InOrder(chains);
    PlacedIsDisjoint(hashFn, n, chains, index);
    InOrderNoDup(chains);
    forall x | 0 <= x < |keys| ensures keys[x] in index && index[keys[x]] == all[x] {
      InOrderHolds(chains, all[x]);
      assert all[x] in all;
      var i :| 0 <= i < |chains| && all[x] in chains[i];
      assert Home(hashFn, n, index, all[x], i);
    }
    forall k | k in index ensures k in keys {
      InOrderHolds(chains, index[k]);
      var x :| 0 <= x < |all| && all[x] == index[k];
      assert keys[x] == k;
    }
  }

  lemma AllReleased<K, V>(hashFn: K -> nat, n: nat, chains: seq<seq<Node<K, V>>>, index: map<K, Node<K, V>>)
    requires Placed(hashFn, n, chains, index)
    ensures NoDup(Released(chains, 0))
    ensures forall nd :: nd in Released(chains, 0) <==> nd in index.Values
  {
    PlacedIsDisjoint(hashFn, n, chains, index);
    ReleasedNoDup(chains, 0);
    forall nd | nd in Released(chains, 0) ensures nd in index.Values {
      ReleasedHolds(chains, 0, nd);
      var k :| 0 <= k < |chains| && nd in chains[k];
      assert Home(hashFn, n, index, nd, k);
    }
    forall nd | nd in index.Values ensures nd in Released(chains, 0) {
      var k :| k in index && index[k] == nd;
      ReleasedHolds(chains, 0, nd);
      assert Holds(chains, index[k]);
    }
  }

  lemma ReversePush<N>(c: seq<N>, j: nat, acc: seq<N>)
    requires j < |c|
    ensures [c[j]] + (Reverse(c[..j]) + acc) == Reverse(c[..j + 1]) + acc
  {
    assert Reverse(c[..j + 1]) == [c[j]] + Reverse(c[..j]);
  }

  class Map<K(==), V> {
    const hashFn: K -> nat
    var buckets: array?<Node?<K, V>>
    var nbuckets: nat
    var nnodes: nat
    ghost var chains: seq<seq<Node<K, V>>>
    ghost var index: map<K, Node<K, V>>
    ghost var nodes: set<Node<K, V>>

    ghost function Repr(): set<object>
      reads this
    {
      {this} + (if buckets == null then {} else {buckets}) + nodes
    }

    /** The finite map that is represented. */
    ghost function Contents(): map<K, V>
      reads this, nodes`value
    {
      map k | k in index && index[k] in nodes :: index[k].value
    }

    /** The bucket array and the links agree with `chains`. */
    ghost predicate Wired()
      reads this`buckets, this`nbuckets, this`chains, this`nodes, buckets, nodes`next
    {
      && |chains| == nbuckets
      && (nbuckets == 0 <==> buckets == null)
      && (nbuckets > 0 ==> buckets.Length == nbuckets && PowerOfTwo(nbuckets) && nbuckets <= INT_MAX)
      && (forall i, nd :: 0 <= i < nbuckets && nd in chains[i] ==> nd in nodes)
      && forall i :: 0 <= i < nbuckets ==> Linked(buckets[i], chains[i])
    }

    ghost predicate Valid()
      reads this, buckets, nodes`next
    {
      && Wired()
      && Placed(hashFn, nbuckets, chains, index)
      && (forall k :: k in index ==> index[k] in nodes)
      && nnodes == |index| && nnodes <= nbuckets
    }

    constructor (hashFn: K -> nat)
      ensures Valid() && Contents() == map[] && this.hashFn == hashFn && fresh(Repr())
      ensures nbuckets == 0 && nnodes == 0
    {
      this.hashFn := hashFn;
      buckets, nbuckets, nnodes := null, 0, 0;
      chains, index, nodes := [], map[], {};
    }

    /** The loop of the search over one chain. */
    method FindInChain(b: nat, key: K, hash: nat) returns (link: Link<K, V>, ghost j: nat)
      requires b < nbuckets && buckets != null && b < buckets.Length && b < |chains| && Linked(buckets[b], chains[b])
      requires forall nd :: nd in chains[b] && nd.key == key ==> nd.hash == hash
      ensures link.NoLink? ==> forall nd :: nd in chains[b] ==> nd.key != key
      ensures !link.NoLink? ==> j < |chains[b]| && chains[b][j].key == key
      ensures link.InBucket? ==> link.i == b && j == 0
      ensures link.InNode? ==> j > 0 && link.prev == chains[b][j - 1]
    {
      ghost var c := chains[b];
      j := 0;
      link := InBucket(b);
      var target := buckets[b];
      while target != null
        invariant Linked(buckets[b], c)
        invariant j <= |c| && target == At(c, j)
        invariant link == if j == 0 then InBucket(b) else InNode(c[j - 1])
        invariant forall x :: 0 <= x < j ==> c[x].key != key
        decreases |c| - j
      {
        NextInChain(buckets[b], c, j);
        if target.hash == hash && target.key == key {
          return;
        }
        link := InNode(target);
        target := target.next;
        j := j + 1;
      }
      link := NoLink;
    }

    /** __truk_map_getref: the link that points to the node with `key`, if there is one. */
    method GetRef(key: K) returns (link: Link<K, V>, ghost i: nat, ghost j: nat)
      requires Valid()
      ensures link.NoLink? <==> key !in index
      ensures !link.NoLink? ==> i < nbuckets == |chains| && LinkAt(link, chains[i], i, j) && j < |chains[i]| && chains[i][j] == index[key]
      ensures forall k :: k in index ==> index[k].key == k
      ensures key in index <==> key in Contents()
    {
      i, j := 0, 0;
      link := NoLink;
      var hash := hashFn(key);
      if nbuckets > 0 {
        i := BucketIdx(hash, nbuckets);
        InBucketOfKey(hashFn, nbuckets, chains, index, key);
        link, j := FindInChain(BucketIdx(hash, nbuckets), key, hash);
        assert !link.NoLink? ==> chains[i][j] in chains[i];
      }
    }

    /** `*next` */
    method Follow(link: Link<K, V>, ghost i: nat, ghost j: nat) returns (node: Node<K, V>)
      requires Valid() && i < nbuckets && i < |chains| && LinkAt(link, chains[i], i, j) && j < |chains[i]|
      ensures node == chains[i][j] && node in nodes
    {
      hide Placed, PowerOfTwo;
      assert Linked(buckets[i], chains[i]) && chains[i][j] in chains[i];
      match link {
        case InBucket(b) => node := buckets[b];
        case InNode(prev) => node := prev.next;
      }
    }

    /** __truk_map_get_: the stored value, or null. */
    method Get(key: K) returns (r: Option<V>)
      requires Valid()
      ensures r == if key in Contents() then Some(Contents()[key]) else None
    {
      hide Placed, Linked, Wired;
      var link, i, j := GetRef(key);
      if link.NoLink? {
        r := None;
      } else {
        var node := Follow(link, i, j);
        r := Some(node.value);
      }
    }

    /** The chains after a node has been put in front of its bucket. */
    ghost function Pushed(node: Node<K, V>): seq<seq<Node<K, V>>>
      requires PowerOfTwo(nbuckets) && |chains| == nbuckets
      reads this
    {
      var n := BucketIdx(node.hash, nbuckets);
      chains[n := [node] + chains[n]]
    }

    /** __truk_map_addnode. */
    method AddNode(node: Node<K, V>)
      requires Wired() && nbuckets > 0 && !Holds(chains, node)
      modifies this`chains, this`nodes, buckets, node`next
      ensures chains == old(Pushed(node)) && nodes == old(nodes) + {node} && Wired()
    {
      var n := BucketIdx(node.hash, nbuckets);
      ghost var was := chains;
      ghost var heads := buckets[..];
      node.next := buckets[n];
      buckets[n] := node;
      chains := chains[n := [node] + chains[n]];
      nodes := nodes + {node};
      forall i | 0 <= i < nbuckets ensures Linked(buckets[i], chains[i]) {
        assert old(Linked(heads[i], was[i]));
        assert forall nd :: nd in was[i] ==> nd != node;
        assert Linked(heads[i], was[i]);
        if i == n {
          LinkInFront(node, was[i]);
        }
      }
    }

    /** `*next = (*next)->next`. */
    method Redirect(link: Link<K, V>, ghost i: nat, ghost j: nat) returns (node: Node<K, V>)
      requires buckets != null && i < buckets.Length && i < |chains| && j < |chains[i]|
      requires Linked(buckets[i], chains[i]) && NoDup(chains[i])
      requires LinkAt(link, chains[i], i, j)
      modifies buckets, chains[i]`next
      ensures node == chains[i][j] && Linked(buckets[i], Cut(chains[i], j))
      ensures buckets[..] == old(buckets[..])[i := buckets[i]]
    {
      ghost var c := chains[i];
      assert j > 0 ==> c[j - 1] in c;
      match link {
        case InBucket(b) =>
          node := buckets[b];
          buckets[b] := node.next;
        case InNode(prev) =>
          node := prev.next;
          prev.next := node.next;
      }
      SkipLinked(buckets[i], c, j);
    }

    /** The chains after the node a link points to has been taken out. */
    method Unlink(link: Link<K, V>, ghost i: nat, ghost j: nat) returns (node: Node<K, V>)
      requires Wired() && Disjoint(chains) && i < nbuckets && j < |chains[i]| && LinkAt(link, chains[i], i, j)
      modifies this`chains, buckets, nodes`next
      ensures node == old(chains[i][j]) && chains == old(chains)[i := Cut(old(chains[i]), j)] && Wired()
    {
      hide BucketIdx, PowerOfTwo, NoDup, LinkAt, Cut;
      ghost var heads := buckets[..];
      ghost var was := chains;
      CutAmong(chains[i], j);
      node := Redirect(link, i, j);
      forall x | 0 <= x < nbuckets && x != i ensures Linked(buckets[x], was[x]) {
        assert buckets[x] == buckets[..][x] == heads[x];
        assert old(Linked(heads[x], was[x]));
        assert forall y :: 0 <= y < |was[x]| ==> was[x][y] in was[x] && was[x][y] !in was[i];
      }
      chains := chains[i := Cut(chains[i], j)];
    }

    /** Takes out the node of `key`, found at position `j` of bucket `i`. */
    method RemoveAt(key: K, link: Link<K, V>, ghost i: nat, ghost j: nat) returns (freed: Node<K, V>)
      requires Valid() && key in index && i < nbuckets && j < |chains[i]|
      requires LinkAt(link, chains[i], i, j) && chains[i][j] == index[key] && index[key].key == key
      modifies this, buckets, nodes`next
      ensures Valid() && index == old(index) - {key} && freed == old(index)[key]
      ensures Contents() == old(Contents()) - {key}
      ensures buckets == old(buckets) && nbuckets == old(nbuckets)
    {
      hide Placed, Home, NoDup, Holds, Disjoint, BucketIdx, PowerOfTwo, Wired, Linked, Cut, Contents;
      ContentsAt();
      ghost var goal := Contents() - {key};
      ghost var was := chains;
      PlacedIsDisjoint(hashFn, nbuckets, chains, index);
      freed := Unlink(link, i, j);
      nnodes := nnodes - 1;
      ghost var left := index - {key};
      PlacedWithout(hashFn, nbuckets, was, index, i, j, chains, left);
      index := left;
      ContentsIs(goal);
    }

    /** __truk_map_remove_: the node is unlinked through the link that points to it and handed to free. */
    method Remove(key: K) returns (freed: Node?<K, V>)
      requires Valid()
      modifies this, buckets, nodes`next
      ensures Valid() && Contents() == old(Contents()) - {key}
      ensures freed == if key in old(index) then old(index)[key] else null
      ensures index == old(index) - {key} && buckets == old(buckets) && nbuckets == old(nbuckets)
    {
      hide Valid, Contents, LinkAt;
      var link, i, j := GetRef(key);
      if link.NoLink? {
        assert index - {key} == index && Contents() - {key} == Contents();
        freed := null;
      } else {
        freed := RemoveAt(key, link, i, j);
      }
    }

    static method PushFront(node: Node<K, V>, head: Node?<K, V>, ghost list: seq<Node<K, V>>)
      requires Linked(head, list) && node !in list
      modifies node`next
      ensures Linked(node, [node] + list)
    {
      node.next := head;
      assert forall y :: 0 <= y < |list| ==> list[y] in list;
      LinkInFront(node, list);
    }

    /** Pushes the nodes of the list `c` one by one in front of the list `acc`. */
    static method ReverseOnto(first: Node?<K, V>, ghost c: seq<Node<K, V>>, list: Node?<K, V>, ghost acc: seq<Node<K, V>>)
      returns (head: Node?<K, V>)
      requires Linked(first, c) && Linked(list, acc) && NoDup(c) && forall nd :: nd in c ==> nd !in acc
      modifies c`next
      ensures Linked(head, Reverse(c) + acc)
    {
      hide Reverse, Linked, NoDup;
      var node := first;
      head := list;
      ghost var j := 0;
      ghost var done := acc;
      Remaining(first, c);
      assert c[..0] == [] && Reverse(c[..0]) + acc == acc;
      while node != null
        invariant j <= |c| && node == At(c, j) && done == Reverse(c[..j]) + acc && Linked(head, done)
        invariant forall x :: j <= x < |c| ==> c[x].next == At(c, x + 1)
        decreases |c| - j
      {
        NotYet(c, j, acc);
        var next := node.next;
        PushFront(node, head, done);
        head := node;
        ReversePush(c, j, acc);
        done := [node] + done;
        node := next;
        j := j + 1;
      }
      assert c[..j] == c;
    }

    /** The first loop of the growing step: every node of every bucket ends up in one list. */
    method Drain() returns (list: Node?<K, V>)
      requires Wired() && Disjoint(chains)
      modifies nodes`next
      ensures Linked(list, Drained(chains, 0))
    {
      hide Reverse, NoDup, PowerOfTwo, Disjoint, Drained;
      var i := nbuckets;
      list := null;
      EmptyIsLinked<K, V>();
      NothingDrained(chains);
      while i > 0
        invariant 0 <= i <= nbuckets && Linked(list, Drained(chains, i))
        invariant forall x :: 0 <= x < i ==> Linked(buckets[x], chains[x])
      {
        i := i - 1;
        DrainStep(chains, i);
        label Before:
        list := ReverseOnto(buckets[i], chains[i], list, Drained(chains, i + 1));
        forall x | 0 <= x < i ensures Linked(buckets[x], chains[x]) {
          assert old@Before(Linked(buckets[x], chains[x]));
          assert forall y :: 0 <= y < |chains[x]| ==> chains[x][y] !in chains[i];
        }
      }
    }

    /** The second loop of the growing step: the collected nodes go to the buckets of their hashes. */
    method Rebuild(list: Node?<K, V>, ghost acc: seq<Node<K, V>>)
      requires Wired() && nbuckets > 0 && Linked(list, acc) && NoDup(acc) && Spread(chains, [], nbuckets)
      requires forall nd :: nd in acc ==> nd in nodes
      modifies this`chains, this`nodes, buckets, nodes`next
      ensures Wired() && Spread(chains, acc, nbuckets) && nodes == old(nodes)
    {
      hide Wired, Spread, Linked, PowerOfTwo, BucketIdx;
      var node := list;
      ghost var t := 0;
      Remaining(list, acc);
      assert acc[..0] == [];
      while node != null
        invariant t <= |acc| && node == At(acc, t) && Wired() && Spread(chains, acc[..t], nbuckets)
        invariant nodes == old(nodes)
        invariant forall x :: t <= x < |acc| ==> acc[x].next == At(acc, x + 1)
        decreases |acc| - t
      {
        SpreadIsPowerOfTwo(chains, acc[..t], nbuckets);
        NotSpreadYet(chains, acc, t, nbuckets);
        ghost var was := chains;
        var next := node.next;
        AddNode(node);
        SpreadPush(was, acc[..t], nbuckets, node, chains);
        assert acc[..t] + [acc[t]] == acc[..t + 1];
        node := next;
        t := t + 1;
      }
      assert acc[..t] == acc;
    }

    /** The realloc and memset of the growing step: all buckets are empty; the collected list stays. */
    method ResetBuckets(n: nat, allocOk: bool, list: Node?<K, V>, ghost acc: seq<Node<K, V>>)
      requires Linked(list, acc)
      requires buckets != null ==> buckets.Length == nbuckets > 0 && PowerOfTwo(nbuckets) && nbuckets <= INT_MAX
      requires allocOk ==> PowerOfTwo(n) && 0 < n <= INT_MAX
      modifies this`buckets, this`nbuckets, this`chains, buckets
      ensures Linked(list, acc)
      ensures buckets != null ==> Wired() && Spread(chains, [], nbuckets)
      ensures if allocOk then fresh(buckets) && nbuckets == n
              else buckets == old(buckets) && nbuckets == old(nbuckets) && (buckets == null ==> chains == old(chains))
    {
      hide PowerOfTwo, BucketIdx;
      if allocOk {
        buckets := new Node?<K, V>[n];
        nbuckets := n;
      }
      if buckets != null {
        forall i | 0 <= i < buckets.Length {
          buckets[i] := null;
        }
        chains := seq(nbuckets, _ => []);
      }
      assert forall y :: 0 <= y < |acc| ==> acc[y] in acc;
    }

    /** __truk_map_resize: `n` buckets, or the same number again when the bucket array cannot be had. The
        nodes and the represented map stay in either case. */
    method Resize(n: nat, allocOk: bool) returns (err: bool)
      requires Valid() && (allocOk ==> PowerOfTwo(n) && 0 < n && nbuckets <= n <= INT_MAX)
      modifies this, buckets, nodes`next
      ensures Valid() && index == old(index) && nodes == old(nodes)
      ensures err <==> !allocOk
      ensures nbuckets == if allocOk then n else old(nbuckets)
      ensures allocOk ==> fresh(buckets)
      ensures !allocOk ==> buckets == old(buckets)
    {
      hide Placed, Linked, Spread, BucketIdx, Disjoint, NoDup, Drained, PowerOfTwo;
      ghost var was, before := chains, nbuckets;
      PlacedIsDisjoint(hashFn, nbuckets, chains, index);
      var list := Drain();
      ghost var acc := Drained(was, 0);
      DrainedNoDup(was, 0);
      DrainedAmong(was, nodes);
      ResetBuckets(n, allocOk, list, acc);
      if buckets != null {
        Rebuild(list, acc);
        PlacedAgain(hashFn, before, was, index, chains, nbuckets);
      }
      err := !allocOk;
    }

    lemma ContentsAt()
      requires forall k :: k in index ==> index[k] in nodes
      ensures Contents().Keys == index.Keys && forall k :: k in index ==> Contents()[k] == index[k].value
    {}

    lemma ContentsIs(c: map<K, V>)
      requires forall k :: k in index ==> index[k] in nodes
      requires c.Keys == index.Keys && forall k :: k in index ==> c[k] == index[k].value
      ensures Contents() == c
    {}

    lemma WiredSizes()
      requires Wired()
      ensures |chains| == nbuckets && (nbuckets > 0 ==> PowerOfTwo(nbuckets))
    {}

    /** What holds between any two operations: the chains are without repetition and disjoint, every key is in
        the bucket of its hash and nowhere else, and the count is the number of keys and never exceeds the number
        of buckets, which is zero or a power of two. */
    lemma Shape(key: K)
      requires Valid()
      ensures nnodes == |Contents()| && nnodes <= nbuckets && (nbuckets == 0 || PowerOfTwo(nbuckets))
      ensures Disjoint(chains)
      ensures key in Contents() <==>
              nbuckets > 0 && exists nd :: nd in chains[BucketIdx(hashFn(key), nbuckets)] && nd.key == key
      ensures forall i, nd :: 0 <= i < nbuckets && nd in chains[i] && nd.key == key ==> i == BucketIdx(hashFn(key), nbuckets)
    {
      hide Linked, BucketIdx;
      ContentsAt();
      PlacedIsDisjoint(hashFn, nbuckets, chains, index);
      assert Contents().Keys == index.Keys;
      SameSize(Contents(), index);
      if nbuckets > 0 {
        InBucketOfKey(hashFn, nbuckets, chains, index, key);
      }
      forall i, nd | 0 <= i < nbuckets && nd in chains[i] ensures Home(hashFn, nbuckets, index, nd, i) {}
    }

    lemma CountedInBuckets()
      requires Valid()
      ensures nnodes <= nbuckets
    {}

    /** A full map grows before a node is added. */
    method Grow(bucketsOk: bool) returns (err: bool)
      requires Valid()
      modifies this, buckets, nodes`next
      ensures Valid() && index == old(index) && nodes == old(nodes)
      ensures err <==> old(nnodes >= nbuckets) && !(bucketsOk && old(nbuckets) < 0x4000_0000)
      ensures nbuckets == if err || old(nnodes < nbuckets) then old(nbuckets)
                          else if old(nbuckets) == 0 then 1 else 2 * old(nbuckets)
      ensures nnodes == old(nnodes) && (!err ==> nnodes < nbuckets)
      ensures fresh(Repr() - old(Repr())) && Contents() == old(Contents())
    {
      hide Placed, Linked;
      err := false;
      if nnodes >= nbuckets {
        var n := if nbuckets > 0 then 2 * nbuckets else 1;
        err := Resize(n, bucketsOk && n <= INT_MAX);
      }
    }

    /** The node goes to the front of its bucket and is counted. */
    method Insert(node: Node<K, V>)
      requires Valid() && nnodes < nbuckets && node !in Repr()
      requires node.key !in index && node.hash == hashFn(node.key)
      modifies this, buckets, nodes`next, node`next
      ensures Valid() && Contents() == old(Contents())[node.key := node.value] && Repr() == old(Repr()) + {node}
      ensures index == old(index)[node.key := node] && nbuckets == old(nbuckets) && nnodes == old(nnodes) + 1
    {
      hide Placed, Linked, BucketIdx, PowerOfTwo, Holds, Contents;
      ghost var was := chains;
      WiredSizes();
      Counted(index, node.key, node);
      PlacedWith(hashFn, nbuckets, chains, index, node, Pushed(node));
      ContentsAt();
      ghost var goal := Contents()[node.key := node.value];
      AddNode(node);
      index := index[node.key := node];
      nnodes := nnodes + 1;
      ContentsIs(goal);
    }

    /** A new value for a stored key. */
    method Assign(node: Node<K, V>, value: V)
      requires Valid() && node.key in index && index[node.key] == node
      requires forall k :: k in index ==> index[k].key == k
      modifies node`value
      ensures Valid() && Contents() == old(Contents())[node.key := value]
    {
      hide Placed, Wired;
      node.value := value;
    }

    /** The part of __truk_map_set_ for a key that is not stored. */
    method Add(key: K, value: V, nodeOk: bool, bucketsOk: bool) returns (ok: bool, made: Node?<K, V>, freed: Node?<K, V>)
      requires Valid() && key !in index
      modifies this, buckets, nodes`next
      ensures Valid() && fresh(Repr() - old(Repr()))
      ensures (made != null <==> nodeOk) && (made != null ==> fresh(made))
      ensures freed == (if ok then null else made) && (ok ==> key in index && index[key] == made)
      ensures freed != null ==> freed !in Repr()
      ensures Contents() == if ok then old(Contents())[key := value] else old(Contents())
      ensures ok <==> nodeOk && (old(nnodes < nbuckets) || (bucketsOk && old(nbuckets) < 0x4000_0000))
      ensures nbuckets == if ok && old(nnodes == nbuckets) then (if old(nbuckets) == 0 then 1 else 2 * old(nbuckets))
                          else old(nbuckets)
      ensures nnodes == old(nnodes) + if ok then 1 else 0
    {
      hide Valid, Placed, Wired, Contents;
      CountedInBuckets();
      made, freed := null, null;
      if !nodeOk {
        return false, made, freed;
      }
      var node := new Node(key, value, hashFn(key));
      made := node;
      var err := Grow(bucketsOk);
      if err {
        return false, made, node;
      }
      Insert(node);
      ok := true;
    }

    /** __truk_map_set_: `nodeOk` and `bucketsOk` say whether memory for a node and for a bucket array can
        be had. A node is made only for a key that is not stored; it ends in the map, or is freed again. */
    method Set(key: K, value: V, nodeOk: bool, bucketsOk: bool) returns (ok: bool, made: Node?<K, V>, freed: Node?<K, V>)
      requires Valid()
      modifies this, buckets, nodes
      ensures Valid() && fresh(Repr() - old(Repr()))
      ensures Contents() == if ok then old(Contents())[key := value] else old(Contents())
      ensures ok <==> key in old(Contents()) ||
                      (nodeOk && (old(nnodes < nbuckets) || (bucketsOk && old(nbuckets) < 0x4000_0000)))
      ensures nbuckets == if ok && key !in old(Contents()) && old(nnodes == nbuckets)
                          then (if old(nbuckets) == 0 then 1 else 2 * old(nbuckets)) else old(nbuckets)
      ensures nnodes == old(nnodes) + if ok && key !in old(Contents()) then 1 else 0
      ensures (made != null <==> nodeOk && key !in old(Contents())) && (made != null ==> fresh(made))
      ensures freed == (if ok then null else made) && (freed != null ==> freed !in Repr())
      ensures ok && made != null ==> key in index && index[key] == made
    {
      hide Valid, Contents, LinkAt;
      made, freed := null, null;
      var link, i, j := GetRef(key);
      if link.NoLink? {
        ok, made, freed := Add(key, value, nodeOk, bucketsOk);
      } else {
        var found := Follow(link, i, j);
        Assign(found, value);
        ok := true;
      }
    }

    // ----- iteration -----

    /** The iterator is before the first bucket, behind the last one, or on node `j` of its bucket. */
    ghost predicate On(it: Iter<K, V>, j: nat)
      reads this, it
    {
      && |chains| == nbuckets && it.bucketIdx < UNSIGNED_RANGE
      && if it.node == null then it.bucketIdx == UNSIGNED_RANGE - 1 || it.bucketIdx >= nbuckets
         else it.bucketIdx < nbuckets && j < |chains[it.bucketIdx]| && it.node == chains[it.bucketIdx][j]
    }

    /** The nodes of bucket `k` and the ones behind it. */
    ghost function From(k: nat): seq<Node<K, V>>
      reads this
    {
      if k <= |chains| then InOrder(chains[k..]) else []
    }

    /** The nodes that the iterator has still to visit. */
    ghost function Ahead(it: Iter<K, V>, j: nat): seq<Node<K, V>>
      requires On(it, j)
      reads this, it
    {
      if it.node != null then chains[it.bucketIdx][j + 1..] + From(it.bucketIdx + 1)
      else From((it.bucketIdx + 1) % UNSIGNED_RANGE)
    }

    lemma FromNext(k: nat)
      requires Valid() && k < nbuckets
      ensures k < |chains| && buckets != null && nbuckets <= buckets.Length && buckets[k] == At(chains[k], 0)
      ensures From(k) == chains[k] + From(k + 1)
      ensures forall j :: 0 <= j < |chains[k]| ==> chains[k][j].next == At(chains[k], j + 1)
    {
      hide Placed, PowerOfTwo;
      assert chains[k..][1..] == chains[k + 1..];
      Remaining(buckets[k], chains[k]);
    }

    lemma FromEnd()
      requires Valid()
      ensures From(nbuckets) == [] && nbuckets < UNSIGNED_RANGE - 1 && |chains| == nbuckets
    {}

    /** The inner loop of __truk_map_next_: on to the next bucket that is not empty. */
    method NextBucket(it: Iter<K, V>)
      requires Valid() && it.node == null && it.bucketIdx < UNSIGNED_RANGE
      modifies it
      ensures On(it, 0)
      ensures var k := (old(it.bucketIdx) + 1) % UNSIGNED_RANGE;
              if From(k) == [] then it.node == null && it.bucketIdx == (if k <= nbuckets then nbuckets else k)
              else it.node == From(k)[0] && Ahead(it, 0) == From(k)[1..]
    {
      hide Valid, InOrder;
      FromEnd();
      ghost var k := (it.bucketIdx + 1) % UNSIGNED_RANGE;
      ghost var all := From(k);
      while true
        invariant it.node == null && k == (it.bucketIdx + 1) % UNSIGNED_RANGE && From(k) == all
        invariant k <= nbuckets || k == (old(it.bucketIdx) + 1) % UNSIGNED_RANGE
        decreases nbuckets - k
      {
        it.bucketIdx := (it.bucketIdx + 1) % UNSIGNED_RANGE;
        if it.bucketIdx >= nbuckets {
          return;
        }
        FromNext(k);
        it.node := buckets[it.bucketIdx];
        if it.node != null {
          assert chains[k] + From(k + 1) == [chains[k][0]] + (chains[k][1..] + From(k + 1));
          return;
        }
        assert chains[k] + From(k + 1) == From(k + 1);
        k := k + 1;
      }
    }

    /** __truk_map_next_. `j` and `j'` are the positions of the iterator in its chain. */
    method Next(it: Iter<K, V>, ghost j: nat) returns (key: Option<K>, ghost j': nat)
      requires Valid() && On(it, j)
      modifies it
      ensures On(it, j')
      ensures var all := old(Ahead(it, j));
              if all == [] then key == None && it.node == null
              else key == Some(all[0].key) && Ahead(it, j') == all[1..]
      ensures old(Ahead(it, j)) == [] && (old(it.node) != null || old(it.bucketIdx) == UNSIGNED_RANGE - 1) ==>
                it.bucketIdx == nbuckets
    {
      hide Valid, From;
      FromEnd();
      j' := 0;
      if it.node != null {
        ghost var c := chains[it.bucketIdx];
        FromNext(it.bucketIdx);
        ghost var rest := From(it.bucketIdx + 1);
        it.node := it.node.next;
        if it.node == null {
          assert c[j + 1..] + rest == rest;
          NextBucket(it);
        } else {
          j' := j + 1;
          assert c[j + 1..] + rest == [c[j + 1]] + (c[j + 2..] + rest);
        }
      } else {
        NextBucket(it);
      }
      key := if it.node == null then None else Some(it.node.key);
    }

    lemma BeforeFirst(it: Iter<K, V>)
      requires Valid() && it.node == null && it.bucketIdx == UNSIGNED_RANGE - 1
      ensures On(it, 0) && Ahead(it, 0) == InOrder(chains)
    {
      assert chains[0..] == chains;
    }

    /** Calling next until it answers null yields every stored key exactly once. */
    method AllKeys() returns (keys: seq<K>)
      requires Valid()
      ensures NoDup(keys) && forall k :: k in keys <==> k in Contents()
    {
      hide Placed, PowerOfTwo, InOrder, NoDup, From, On, Ahead, Linked, Wired, Contents;
      var it := new Iter<K, V>();
      ghost var j := 0;
      BeforeFirst(it);
      ghost var all := InOrder(chains);
      keys := [];
      var key;
      key, j := Next(it, 0);
      while key.Some?
        invariant |keys| < |all| || key.None?
        invariant On(it, j)
        invariant |keys| <= |all| && forall x :: 0 <= x < |keys| ==> keys[x] == all[x].key
        invariant if key.None? then |keys| == |all| else key.value == all[|keys|].key && Ahead(it, j) == all[|keys| + 1..]
        decreases |all| - |keys|, key.Some?
      {
        keys := keys + [key.value];
        key, j := Next(it, j);
      }
      KeysInOrder(hashFn, nbuckets, chains, index, keys);
      ContentsAt();
    }

    // ----- release -----

    /** Hands the nodes of one chain to free, reading each link before its node goes. */
    static method FreeChain(first: Node?<K, V>, ghost c: seq<Node<K, V>>, already: seq<Node<K, V>>)
      returns (freed: seq<Node<K, V>>)
      requires Linked(first, c)
      ensures freed == already + c
    {
      freed := already;
      var node := first;
      ghost var j := 0;
      while node != null
        invariant j <= |c| && node == At(c, j) && freed == already + c[..j]
        decreases |c| - j
      {
        NextInChain(first, c, j);
        var next := node.next;
        freed := freed + [node];
        node := next;
        j := j + 1;
      }
      assert c[..j] == c;
    }

    /** __truk_map_deinit_: every node is freed exactly once, then the bucket array, and nothing else is. */
    method Deinit() returns (freed: seq<Node<K, V>>, released: array?<Node?<K, V>>)
      requires Valid()
      ensures NoDup(freed) && forall nd :: nd in freed <==> nd in index.Values
      ensures released == buckets
    {
      hide Placed, PowerOfTwo;
      freed := [];
      var i := nbuckets;
      while i > 0
        invariant 0 <= i <= nbuckets && freed == Released(chains, i)
      {
        i := i - 1;
        freed := FreeChain(buckets[i], chains[i], freed);
      }
      AllReleased(hashFn, nbuckets, chains, index);
      released := buckets;
    }
  }

  /** The finite map that gives each key its value. */
  function AsMap<K, V>(keys: seq<K>, values: seq<V>): (r: map<K, V>)
    requires |keys| == |values|
  {
    if keys == [] then map[] else AsMap(keys[..|keys| - 1], values[..|keys| - 1])[keys[|keys| - 1] := values[|keys| - 1]]
  }

  lemma {:induction false} AsMapGives<K, V>(keys: seq<K>, values: seq<V>, k: K)
    requires |keys| == |values|
    ensures k in AsMap(keys, values) <==> k in keys
    ensures NoDup(keys) ==> forall i :: 0 <= i < |keys| && keys[i] == k ==> AsMap(keys, values)[k] == values[i]
  {
    if keys != [] {
      var n := |keys| - 1;
      AsMapGives(keys[..n], values[..n], k);
      assert keys == keys[..n] + [keys[n]];
    }
  }

  /** Setting different keys one after the other, with memory at hand, in a new map: it takes them all, up to 2^30 of them,
      and has then at least as many buckets as keys, but less than twice as many. */
  method SetAll<K(==), V>(hashFn: K -> nat, keys: seq<K>, values: seq<V>) returns (m: Map<K, V>)
    requires |keys| == |values| <= 0x4000_0000 && NoDup(keys)
    ensures m.Valid() && fresh(m.Repr()) && m.hashFn == hashFn && m.Contents() == AsMap(keys, values)
    ensures m.nnodes == |keys|
    ensures if keys == [] then m.nbuckets == 0 else |keys| <= m.nbuckets < 2 * |keys|
    decreases |keys|
  {
    hide Map.Valid, Map.Contents, NoDup;
    if keys == [] {
      m := new Map(hashFn);
    } else {
      var n := |keys| - 1;
      FrontNoDup(keys);
      m := SetAll(hashFn, keys[..n], values[..n]);
      SetNext(m, keys, values, n);
      assert keys[..n + 1] == keys && values[..n + 1] == values;
    }
  }

  lemma FrontNoDup<K>(keys: seq<K>)
    requires NoDup(keys) && keys != []
    ensures NoDup(keys[..|keys| - 1])
  {}

  method SetNext<K(==), V>(m: Map<K, V>, keys: seq<K>, values: seq<V>, i: nat)
    requires i < |keys| == |values| <= 0x4000_0000 && NoDup(keys)
    requires m.Valid() && m.Contents() == AsMap(keys[..i], values[..i])
    requires m.nnodes == i && if i == 0 then m.nbuckets == 0 else i <= m.nbuckets < 2 * i
    modifies m, m.buckets, m.nodes
    ensures m.Valid() && m.Contents() == AsMap(keys[..i + 1], values[..i + 1])
    ensures fresh(m.Repr() - old(m.Repr()))
    ensures m.nnodes == i + 1 <= m.nbuckets < 2 * (i + 1)
  {
    hide Map.Valid, Map.Contents, AsMap, NoDup;
    AsMapStep(keys, values, i);
    var ok, _, _ := m.Set(keys[i], values[i], true, true);
  }

  lemma AsMapStep<K, V>(keys: seq<K>, values: seq<V>, i: nat)
    requires |keys| == |values| && i <= |keys| && NoDup(keys)
    ensures AsMap(keys[..0], values[..0]) == map[]
    ensures i < |keys| ==> keys[i] !in AsMap(keys[..i], values[..i])
                           && AsMap(keys[..i + 1], values[..i + 1]) == AsMap(keys[..i], values[..i])[keys[i] := values[i]]
  {
    if i < |keys| {
      AsMapGives(keys[..i], values[..i], keys[i]);
      assert keys[..i + 1][..i] == keys[..i] && values[..i + 1][..i] == values[..i];
    }
  }

  lemma SameSize<K, A, B>(a: map<K, A>, b: map<K, B>)
    requires a.Keys == b.Keys
    ensures |a| == |b|
  {
    assert |a.Keys| == |a| && |b.Keys| == |b|;
  }

  lemma DrainedAmong<N>(chains: seq<seq<N>>, all: set<N>)
    requires forall i, nd :: 0 <= i < |chains| && nd in chains[i] ==> nd in all
    ensures forall nd :: nd in Drained(chains, 0) ==> nd in all
  {
    forall nd | nd in Drained(chains, 0) ensures nd in all {
      DrainedHolds(chains, 0, nd);
    }
  }

  lemma Counted<K, N>(index: map<K, N>, key: K, nd: N)
    requires key !in index
    ensures |index[key := nd]| == |index| + 1
  {
    assert index[key := nd].Keys == index.Keys + {key};
  }

  lemma SpreadIsPowerOfTwo<K, V>(chains: seq<seq<Node<K, V>>>, acc: seq<Node<K, V>>, n: nat)
    requires Spread(chains, acc, n)
    ensures PowerOfTwo(n) && |chains| == n
  {}

  lemma NotSpreadYet<K, V>(chains: seq<seq<Node<K, V>>>, acc: seq<Node<K, V>>, t: nat, n: nat)
    requires t < |acc| && Spread(chains, acc[..t], n) && NoDup(acc)
    ensures acc[t] in acc && acc[t] !in acc[..t] && !Holds(chains, acc[t])
    ensures forall x :: t < x < |acc| ==> acc[x] != acc[t]
  {}

  lemma EmptyIsLinked<K, V>()
    ensures Linked<K, V>(null, [])
  {}

  lemma NothingDrained<N>(chains: seq<seq<N>>)
    ensures Drained(chains, |chains|) == []
  {}

  lemma DrainStep<N>(chains: seq<seq<N>>, i: nat)
    requires i < |chains| && Disjoint(chains)
    ensures Drained(chains, i) == Reverse(chains[i]) + Drained(chains, i + 1)
    ensures forall nd :: nd in chains[i] ==> nd !in Drained(chains, i + 1)
    ensures NoDup(chains[i])
    ensures forall x, y :: 0 <= x < i && 0 <= y < |chains[x]| ==> chains[x][y] !in chains[i]
  {
    forall x, y | 0 <= x < i && 0 <= y < |chains[x]| ensures chains[x][y] !in chains[i] {
      assert chains[x][y] in chains[x];
    }
    forall nd | nd in chains[i] ensures nd !in Drained(chains, i + 1) {
      DrainedHolds(chains, i + 1, nd);
    }
  }

  lemma Remaining<K, V>(head: Node?<K, V>, c: seq<Node<K, V>>)
    requires Linked(head, c)
    ensures head == At(c, 0) && forall x :: 0 <= x < |c| ==> c[x].next == At(c, x + 1)
  {}

  lemma NotYet<N>(c: seq<N>, j: nat, acc: seq<N>)
    requires NoDup(c) && j < |c| && forall nd :: nd in c ==> nd !in acc
    ensures c[j] in c && c[j] !in Reverse(c[..j]) + acc
    ensures forall x :: j < x < |c| ==> c[x] != c[j]
  {
    ReverseHolds(c[..j], c[j]);
  }
}
