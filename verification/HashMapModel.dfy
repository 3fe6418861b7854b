/** The bucket arithmetic of the runtime map and the arrangement of nodes in chains, without the heap. */
module HashMapModel {
  import opened Arithmetic
  import opened Sequences

  // ----- hash & (nbuckets - 1) -----

  /** Bitwise conjunction of two unsigned numbers. */
  function BitAnd(a: nat, b: nat): nat {
    if a == 0 || b == 0 then 0 else 2 * BitAnd(a / 2, b / 2) + (a % 2) * (b % 2)
  }

  predicate PowerOfTwo(n: nat) {
    n == 1 || (n > 0 && n % 2 == 0 && PowerOfTwo(n / 2))
  }

  /** Masking with one less than a power of two is the remainder, so it is a bucket number. */
  lemma {:induction false} MaskIsRemainder(h: nat, n: nat)
    requires PowerOfTwo(n)
    ensures BitAnd(h, n - 1) == h % n
    decreases n
  {
    if n == 1 || h == 0 {
    } else {
      MaskIsRemainder(h / 2, n / 2);
      assert (n - 1) / 2 == n / 2 - 1 && (n - 1) % 2 == 1;
      RemainderBits(h, n / 2);
    }
  }

  lemma RemainderBits(h: nat, m: nat)
    requires m > 0
    ensures 2 * (h / 2 % m) + h % 2 == h % (2 * m)
  {
    var q := h / 2 / m;
    var r := h / 2 % m;
    assert h / 2 == q * m + r;
    assert h == 2 * (q * m + r) + h % 2;
    assert h == q * (2 * m) + (2 * r + h % 2);
    Remainder(h, 2 * m, q, 2 * r + h % 2);
  }

  function BucketIdx(h: nat, n: nat): (i: nat)
    requires PowerOfTwo(n)
    ensures i < n
  {
    MaskIsRemainder(h, n);
    BitAnd(h, n - 1)
  }

  // ----- chains -----

  /** The nodes of the chains from `i` on, as the growing step collects them: last bucket first, every node
      pushed in front. */
  function Drained<N>(chains: seq<seq<N>>, i: nat): seq<N>
    requires i <= |chains|
    decreases |chains| - i
  {
    if i == |chains| then [] else Reverse(chains[i]) + Drained(chains, i + 1)
  }

  ghost predicate Holds<N>(chains: seq<seq<N>>, nd: N) {
    exists i :: 0 <= i < |chains| && nd in chains[i]
  }

  /** No node occurs twice, in one chain or in two. */
  ghost predicate Disjoint<N>(chains: seq<seq<N>>) {
    && (forall i :: 0 <= i < |chains| ==> NoDup(chains[i]))
    && (forall i, j :: 0 <= i < j < |chains| ==> forall nd :: nd in chains[i] ==> nd !in chains[j])
  }

  lemma ReverseHolds<N>(s: seq<N>, nd: N)
    ensures nd in Reverse(s) <==> nd in s
  {
    if nd in s {
      var i :| 0 <= i < |s| && s[i] == nd;
      assert Reverse(s)[|s| - 1 - i] == nd;
    }
  }

  lemma {:induction false} DrainedHolds<N>(chains: seq<seq<N>>, i: nat, nd: N)
    requires i <= |chains|
    ensures nd in Drained(chains, i) <==> exists k :: i <= k < |chains| && nd in chains[k]
    decreases |chains| - i
  {
    if i < |chains| {
      ReverseHolds(chains[i], nd);
      DrainedHolds(chains, i + 1, nd);
    }
  }

  lemma {:induction false} DrainedNoDup<N>(chains: seq<seq<N>>, i: nat)
    requires i <= |chains| && Disjoint(chains)
    ensures NoDup(Drained(chains, i))
    decreases |chains| - i
  {
    if i < |chains| {
      DrainedNoDup(chains, i + 1);
      var a, b := Reverse(chains[i]), Drained(chains, i + 1);
      forall nd | nd in a ensures nd !in b {
        ReverseHolds(chains[i], nd);
        DrainedHolds(chains, i + 1, nd);
      }
      NoDupAppend(a, b);
    }
  }

  /** The nodes of the chains from `i` on, as they are released: last bucket first, each chain in order. */
  function Released<N>(chains: seq<seq<N>>, i: nat): seq<N>
    requires i <= |chains|
    decreases |chains| - i
  {
    if i == |chains| then [] else Released(chains, i + 1) + chains[i]
  }

  lemma {:induction false} ReleasedHolds<N>(chains: seq<seq<N>>, i: nat, nd: N)
    requires i <= |chains|
    ensures nd in Released(chains, i) <==> exists k :: i <= k < |chains| && nd in chains[k]
    decreases |chains| - i
  {
    if i < |chains| {
      ReleasedHolds(chains, i + 1, nd);
    }
  }

  lemma {:induction false} ReleasedNoDup<N>(chains: seq<seq<N>>, i: nat)
    requires i <= |chains| && Disjoint(chains)
    ensures NoDup(Released(chains, i))
    decreases |chains| - i
  {
    if i < |chains| {
      ReleasedNoDup(chains, i + 1);
      forall nd | nd in Released(chains, i + 1) ensures nd !in chains[i] {
        ReleasedHolds(chains, i + 1, nd);
      }
      NoDupAppend(Released(chains, i + 1), chains[i]);
    }
  }

  /** All nodes in the order of iteration. */
  function InOrder<N>(chains: seq<seq<N>>): seq<N> {
    if chains == [] then [] else chains[0] + InOrder(chains[1..])
  }

  lemma {:induction false} InOrderHolds<N>(chains: seq<seq<N>>, nd: N)
    ensures nd in InOrder(chains) <==> Holds(chains, nd)
  {
    if chains != [] {
      InOrderHolds(chains[1..], nd);
      if Holds(chains[1..], nd) {
        var i :| 0 <= i < |chains[1..]| && nd in chains[1..][i];
        assert nd in chains[i + 1];
      }
      if Holds(chains, nd) {
        var i :| 0 <= i < |chains| && nd in chains[i];
        assert i > 0 ==> nd in chains[1..][i - 1];
      }
    }
  }

  lemma {:induction false} InOrderNoDup<N>(chains: seq<seq<N>>)
    requires Disjoint(chains)
    ensures NoDup(InOrder(chains))
  {
    if chains != [] {
      assert forall i :: 0 <= i < |chains[1..]| ==> chains[1..][i] == chains[i + 1];
      InOrderNoDup(chains[1..]);
      var a, b := chains[0], InOrder(chains[1..]);
      forall nd | nd in a ensures nd !in b {
        InOrderHolds(chains[1..], nd);
      }
      NoDupAppend(a, b);
    }
  }
}
