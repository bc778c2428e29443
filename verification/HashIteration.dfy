/** The iterator over a chained hash table: every node once, and then the end. */
module HashIteration {
  import opened HashTables
  import opened HashClass

  datatype Cursor = At(bucket: nat, index: nat) | Finished

  ghost predicate OnTable<T>(t: Table<T>, c: Cursor) {
    c.At? ==> c.bucket < |t| && c.index < |t[c.bucket]|
  }

  // The head of the first bucket from this one on that has any.
  function FirstFrom<T>(t: Table<T>, bucket: nat): (c: Cursor)
    requires bucket <= |t|
    ensures OnTable(t, c)
    ensures c.At? ==> bucket <= c.bucket && c.index == 0
    ensures forall b :: bucket <= b < (if c.At? then c.bucket else |t|) ==> t[b] == []
    decreases |t| - bucket
  {
    if bucket == |t| then Finished
    else if t[bucket] != [] then At(bucket, 0)
    else FirstFrom(t, bucket + 1)
  }

  function Next<T>(t: Table<T>, c: Cursor): (n: Cursor)
    requires OnTable(t, c)
    ensures OnTable(t, n)
  {
    if c.Finished? then Finished
    else if c.index + 1 < |t[c.bucket]| then At(c.bucket, c.index + 1)
    else FirstFrom(t, c.bucket + 1)
  }

  // The nodes in the buckets from this one on.
  function CountFrom<T>(t: Table<T>, bucket: nat): nat
    requires bucket <= |t|
    decreases |t| - bucket
  {
    if bucket == |t| then 0 else |t[bucket]| + CountFrom(t, bucket + 1)
  }

  // The nodes from the cursor on.
  function Left<T>(t: Table<T>, c: Cursor): nat
    requires OnTable(t, c)
  {
    if c.Finished? then 0 else |t[c.bucket]| - c.index + CountFrom(t, c.bucket + 1)
  }

  lemma {:induction false} LeftOfFirst<T>(t: Table<T>, bucket: nat)
    requires bucket <= |t|
    ensures Left(t, FirstFrom(t, bucket)) == CountFrom(t, bucket)
    decreases |t| - bucket
  {
    if bucket < |t| && t[bucket] == [] {
      LeftOfFirst(t, bucket + 1);
    }
  }

  // Each step leaves one node fewer, so the iteration ends.
  lemma EachStepLeavesOneFewer<T>(t: Table<T>, c: Cursor)
    requires OnTable(t, c) && c.At?
    ensures Left(t, Next(t, c)) == Left(t, c) - 1
  {
    if c.index + 1 == |t[c.bucket]| {
      LeftOfFirst(t, c.bucket + 1);
    }
  }

  // Where the iterator stands, one step after the other.
  ghost function Path<T>(t: Table<T>, c: Cursor): (p: seq<Cursor>)
    requires OnTable(t, c)
    decreases Left(t, c)
  {
    if c.Finished? then []
    else
      EachStepLeavesOneFewer(t, c);
      [c] + Path(t, Next(t, c))
  }

  ghost predicate Before(c: Cursor, d: Cursor) {
    c.At? && (d.At? ==> c.bucket < d.bucket || (c.bucket == d.bucket && c.index < d.index))
  }

  lemma NothingBetween<T>(t: Table<T>, c: Cursor, d: Cursor)
    requires OnTable(t, c) && c.At? && OnTable(t, d) && Before(c, d) && d.At?
    ensures d == Next(t, c) || Before(Next(t, c), d)
  {
  }

  // From a cursor on, the path has the nodes not before it, in order.
  lemma {:induction false} PathIsTheRest<T>(t: Table<T>, c: Cursor)
    requires OnTable(t, c)
    ensures |Path(t, c)| == Left(t, c)
    ensures forall i :: 0 <= i < |Path(t, c)| ==> OnTable(t, Path(t, c)[i]) && Path(t, c)[i].At?
    ensures forall i :: 0 <= i < |Path(t, c)| ==> Path(t, c)[i] == c || Before(c, Path(t, c)[i])
    ensures forall i, j :: 0 <= i < j < |Path(t, c)| ==> Before(Path(t, c)[i], Path(t, c)[j])
    ensures forall d: Cursor :: d.At? && OnTable(t, d) && (d == c || Before(c, d)) ==> d in Path(t, c)
    decreases Left(t, c)
  {
    if c.At? {
      EachStepLeavesOneFewer(t, c);
      PathIsTheRest(t, Next(t, c));
      forall d: Cursor | d.At? && OnTable(t, d) && Before(c, d) ensures d in Path(t, Next(t, c)) {
        NothingBetween(t, c, d);
      }
    }
  }

  // init and then add, again and again, visit every node exactly once.
  lemma IterationVisitsEachNodeOnce<T>(t: Table<T>)
    ensures var p := Path(t, FirstFrom(t, 0));
      && |p| == CountFrom(t, 0)
      && (forall b: nat, k: nat :: b < |t| && k < |t[b]| ==> At(b, k) in p)
      && (forall i :: 0 <= i < |p| ==> p[i].At? && OnTable(t, p[i]))
      && (forall i, j :: 0 <= i < j < |p| ==> p[i] != p[j])
  {
    var c := FirstFrom(t, 0);
    LeftOfFirst(t, 0);
    PathIsTheRest(t, c);
    forall b: nat, k: nat | b < |t| && k < |t[b]| ensures At(b, k) in Path(t, c) {
      assert At(b, k) == c || Before(c, At(b, k));
    }
  }

  lemma AfterNode<T>(h: Hash<T>, c: Cursor)
    requires h.Valid() && OnTable(h.Contents(), c) && c.At?
    ensures h.chains[c.bucket][c.index].next == NodeAt(h.chains[c.bucket], c.index + 1)
    ensures forall b :: 0 <= b < |h.chains| ==> |h.Contents()[b]| == |h.chains[b]|
  {
    hide Formed;
    assert Linked(h.chains[c.bucket]);
  }

  class HashIterator<T> {
    var hash: Hash?<T>
    var node: HashNode?<T>
    var n: int

    constructor ()
      ensures hash == null
    {
      hash, node, n := null, null, 0;
    }

    // The iterator points at the node the cursor names.
    ghost predicate StandsAt(c: Cursor)
      reads this, hash, if hash == null then {} else {hash.node}, if hash == null then {} else hash.Repr()
    {
      && hash != null && hash.Valid() && OnTable(hash.Contents(), c)
      && (match c
          case At(b, k) => n == b && node == hash.chains[b][k]
          case Finished => n == hash.n)
    }

    // The first bucket from this one on that has a node.
    method Seek(h: Hash<T>, from: nat) returns (bucket: nat)
      requires h.Valid() && from <= h.n
      ensures var c := FirstFrom(h.Contents(), from);
        bucket == (if c.At? then c.bucket else h.n)
    {
      bucket := from;
      while bucket < h.n
        invariant bucket <= h.n
        invariant FirstFrom(h.Contents(), from) == FirstFrom(h.Contents(), bucket)
      {
        if h.node[bucket] != null {
          break;
        }
        bucket := bucket + 1;
      }
    }

    method Init(h: Hash?<T>)
      requires h != null ==> h.Valid()
      modifies this
      ensures h == null ==> hash == old(hash) && node == old(node) && n == old(n)
      ensures h != null ==> hash == h && StandsAt(FirstFrom(h.Contents(), 0))
    {
      if h == null {
        return;
      }
      hash := h;
      var bucket := Seek(h, 0);
      n := bucket;
      if bucket < h.n {
        node := h.node[bucket];
      }
    }

    // To the head of the first bucket from this one on, or the end.
    method Jump(from: nat)
      requires hash != null && hash.Valid() && from <= hash.n
      modifies this
      ensures hash == old(hash) && StandsAt(FirstFrom(hash.Contents(), from))
    {
      hide Formed, Linked, Entries, FirstFrom;
      var bucket := Seek(hash, from);
      n := bucket;
      if bucket < hash.n {
        node := hash.node[bucket];
      } else {
        node := null;
      }
    }

    method Add(ghost c: Cursor)
      requires hash != null ==> StandsAt(c)
      modifies this
      ensures hash == old(hash)
      ensures hash == null ==> node == old(node) && n == old(n)
      ensures hash != null ==> StandsAt(Next(hash.Contents(), c))
    {
      if hash == null || n == hash.n {
        return;
      }
      AfterNode(hash, c);
      hide Linked, Formed, FirstFrom, Entries, TableOf;
      if node.next != null {
        node := node.next;
        return;
      }
      Jump(n + 1);
    }
  }
}
