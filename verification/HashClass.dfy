/** The chained hash table as the linked structure it is: an array of buckets, each a list
    of nodes relinked in place. */
module HashClass {
  import opened HashTables
  import opened Options

  class HashNode<T> {
    const contain: T
    const hashCode: int
    var next: HashNode?<T>

    constructor (contain: T, hashCode: int)
      ensures this.contain == contain && this.hashCode == hashCode && next == null
    {
      this.contain, this.hashCode, next := contain, hashCode, null;
    }
  }

  type Nodes<T> = seq<HashNode<T>>

  ghost function NodeAt<T>(chain: Nodes<T>, k: nat): HashNode?<T> {
    if k < |chain| then chain[k] else null
  }

  ghost function Entries<T>(chain: Nodes<T>): (c: Chain<T>)
    ensures |c| == |chain|
  {
    seq(|chain|, k requires 0 <= k < |chain| => Entry(chain[k].hashCode, chain[k].contain))
  }

  ghost function TableOf<T>(chains: seq<Nodes<T>>): (t: Table<T>)
    requires |chains| > 0
    ensures |t| == |chains|
  {
    seq(|chains|, b requires 0 <= b < |chains| => Entries(chains[b]))
  }

  ghost predicate Linked<T>(chain: Nodes<T>)
    reads chain
  {
    forall k :: 0 <= k < |chain| ==> chain[k].next == NodeAt(chain, k + 1)
  }

  lemma OneNodeIsLinked<T>(n: HashNode<T>)
    requires n.next == null
    ensures Linked([n])
  {
  }

  lemma LinkedSteps<T>(chain: Nodes<T>)
    requires Linked(chain)
    ensures forall j :: 0 <= j < |chain| - 1 ==> chain[j].next == chain[j + 1]
  {
  }

  lemma LinksJoin<T>(chain: Nodes<T>, k: nat, tail: Nodes<T>)
    requires k < |chain| && Linked(tail) && chain[k].next == NodeAt(tail, 0)
    requires forall j :: 0 <= j < k ==> chain[j].next == chain[j + 1]
    ensures Linked(chain[..k + 1] + tail)
  {
    var all := chain[..k + 1] + tail;
    forall j | 0 <= j < |all| ensures all[j].next == NodeAt(all, j + 1) {
      if j > k {
        assert all[j] == tail[j - k - 1];
      }
    }
  }

  // The codes tell the nodes apart.
  lemma NodesDiffer<T>(chains: seq<Nodes<T>>, b: nat, k: nat, b': nat, k': nat)
    requires |chains| > 0 && Formed(TableOf(chains))
    requires b < |chains| && k < |chains[b]| && b' < |chains| && k' < |chains[b']|
    requires chains[b][k] == chains[b'][k']
    ensures b == b' && k == k'
  {
    var t := TableOf(chains);
    assert t[b][k].code == t[b'][k'].code;
    assert Position(t[b][k].code, |t|) == b && Position(t[b'][k'].code, |t|) == b';
  }

  class Hash<T> {
    var node: array?<HashNode?<T>>
    var n: int
    ghost var chains: seq<Nodes<T>>

    ghost function Repr(): set<object>
      reads this
    {
      set b, k | 0 <= b < |chains| && 0 <= k < |chains[b]| :: chains[b][k]
    }

    // The links spell out the chains.
    ghost predicate Links()
      reads this, node, Repr()
    {
      && node != null && n == node.Length == |chains| > 0
      && forall b :: 0 <= b < |chains| ==> node[b] == NodeAt(chains[b], 0) && Linked(chains[b])
    }

    ghost predicate Valid()
      reads this, node, Repr()
    {
      Links() && Formed(TableOf(chains))
    }

    ghost function Contents(): Table<T>
      requires |chains| > 0
      reads this
    {
      TableOf(chains)
    }

    constructor ()
      ensures node == null
    {
      node, n, chains := null, 0, [];
    }

    // hasMemory says whether malloc succeeds.
    method Init(n: int, hasMemory: bool) returns (ok: bool)
      modifies this
      ensures ok <==> n > 0 && old(node) == null && hasMemory
      ensures ok ==> Valid() && fresh(node) && Contents() == Empty(n)
      ensures !ok ==> node == old(node) && this.n == old(this.n) && chains == old(chains)
    {
      if n <= 0 || node != null || !hasMemory {
        return false;
      }
      node := new HashNode?<T>[n](_ => null);
      this.n := n;
      chains := seq(n, _ => []);
      return true;
    }

    method PositionOf(hashCode: int) returns (pos: nat)
      requires Valid()
      ensures pos == Position(hashCode, |chains|) < |chains|
    {
      var p := CRemainder(hashCode, n);
      if p < 0 {
        p := n + p;
      }
      pos := p;
    }

    // The walk along a bucket that get and del share: the node with the code, if any, and
    // the one before it.
    method Find(pos: nat, hashCode: int) returns (pre: HashNode?<T>, found: HashNode?<T>)
      requires Valid() && pos < |chains|
      ensures var chain, k := chains[pos], IndexIn(Entries(chains[pos]), hashCode);
        found == NodeAt(chain, k) && pre == if k == 0 then null else chain[k - 1]
    {
      hide Formed;
      ghost var chain := chains[pos];
      pre, found := null, node[pos];
      ghost var k: nat := 0;
      assert Linked(chain);
      while found != null
        invariant k <= |chain| && found == NodeAt(chain, k)
        invariant pre == if k == 0 then null else chain[k - 1]
        invariant forall j :: 0 <= j < k ==> chain[j].hashCode != hashCode
        decreases |chain| - k
      {
        if found.hashCode == hashCode {
          FoundAt(Entries(chain), hashCode, k);
          return;
        }
        pre := found;
        found, k := found.next, k + 1;
      }
    }

    method Get(hashCode: int) returns (contain: Option<T>)
      requires Valid()
      ensures contain == HashTables.Get(Contents(), hashCode)
    {
      var pos := PositionOf(hashCode);
      var _, n := Find(pos, hashCode);
      if n == null {
        return None;
      }
      return Some(n.contain);
    }

    // The walk of put: to the last node, or to one that has the code already.
    method Last(pos: nat, hashCode: int) returns (n: HashNode<T>, taken: bool)
      requires Valid() && pos < |chains| && chains[pos] != []
      ensures taken <==> IndexIn(Entries(chains[pos]), hashCode) < |chains[pos]|
      ensures !taken ==> n == chains[pos][|chains[pos]| - 1]
    {
      hide Formed;
      ghost var chain := chains[pos];
      n := node[pos];
      ghost var k: nat := 0;
      assert Linked(chain);
      while n.next != null
        invariant k < |chain| && n == chain[k]
        invariant forall j :: 0 <= j < k ==> chain[j].hashCode != hashCode
        decreases |chain| - k
      {
        if n.hashCode == hashCode {
          FoundAt(Entries(chain), hashCode, k);
          return n, true;
        }
        n, k := n.next, k + 1;
      }
      taken := n.hashCode == hashCode;
      if taken {
        FoundAt(Entries(chain), hashCode, k);
      }
    }

    lemma OnlyHere(pos: nat, k: nat)
      requires Valid() && pos < |chains| && k < |chains[pos]|
      ensures forall b :: 0 <= b < |chains| && b != pos ==> chains[pos][k] !in chains[b]
      ensures forall j :: 0 <= j < |chains[pos]| && j != k ==> chains[pos][j] != chains[pos][k]
    {
      hide Formed, TableOf, Entries;
      forall b, j | 0 <= b < |chains| && 0 <= j < |chains[b]| && chains[b][j] == chains[pos][k]
        ensures b == pos && j == k
      {
        NodesDiffer(chains, b, j, pos, k);
      }
    }

    // Lets what follows the k-th node of a chain be the nodes of tail instead.
    method Relink(pre: HashNode<T>, next: HashNode?<T>, ghost pos: nat, ghost k: nat, ghost tail: Nodes<T>)
      requires Valid() && pos < |chains| && k < |chains[pos]| && chains[pos][k] == pre
      requires next == NodeAt(tail, 0) && Linked(tail) && pre !in tail
      modifies this`chains, pre
      ensures Links() && chains == old(chains)[pos := old(chains)[pos][..k + 1] + tail]
    {
      ghost var chain := chains[pos];
      OnlyHere(pos, k);
      LinkedSteps(chain);
      hide Formed, TableOf, Entries, Linked;
      pre.next := next;
      chains := chains[pos := chain[..k + 1] + tail];
      LinksJoin(chain, k, tail);
      forall b | 0 <= b < |chains| ensures node[b] == NodeAt(chains[b], 0) && Linked(chains[b]) {
        if b != pos {
          assert chains[b] == old(chains)[b] && old(Linked(chains[b]));
        }
      }
    }

    method Put(contain: T, hashCode: int, hasMemory: bool) returns (ok: bool)
      requires Valid()
      modifies this`chains, node, Repr()
      ensures Valid() && fresh(Repr() - old(Repr()))
      ensures (Contents(), ok) == if hasMemory then HashTables.Put(old(Contents()), contain, hashCode)
                                  else (old(Contents()), false)
    {
      hide Formed, Position, IndexIn, Linked;
      var pos := PositionOf(hashCode);
      ghost var chain := chains[pos];
      PutKeepsFormed(Contents(), contain, hashCode);
      if node[pos] == null {
        ok := hasMemory;
        if ok {
          var newNode := new HashNode(contain, hashCode);
          StartChain(pos, newNode);
          assert Entries([newNode]) == Entries(chain) + [Entry(hashCode, contain)];
        }
      } else {
        var n, taken := Last(pos, hashCode);
        ok := !taken && hasMemory;
        if ok {
          var newNode := new HashNode(contain, hashCode);
          OneNodeIsLinked(newNode);
          Relink(n, newNode, pos, |chain| - 1, [newNode]);
          assert chain[..|chain|] == chain;
          assert Entries(chain + [newNode]) == Entries(chain) + [Entry(hashCode, contain)];
        }
      }
      assert ok ==> Contents() == old(Contents())[pos := Entries(chains[pos])];
    }

    method StartChain(pos: nat, first: HashNode<T>)
      requires Links() && pos < |chains| && first.next == null && chains[pos] == []
      modifies this`chains, node
      ensures Links() && chains == old(chains)[pos := [first]]
    {
      node[pos] := first;
      chains := chains[pos := [first]];
    }

    method DropChain(pos: nat)
      requires Links() && pos < |chains|
      modifies this`chains, node
      ensures Links() && chains == old(chains)[pos := []]
    {
      node[pos] := null;
      chains := chains[pos := []];
    }

    lemma TailIsLinked(pos: nat, k: nat)
      requires Valid() && pos < |chains| && k < |chains[pos]|
      ensures Linked(chains[pos][k + 1..]) && forall j :: 0 <= j <= k ==> chains[pos][j] !in chains[pos][k + 1..]
      ensures chains[pos][k].next == NodeAt(chains[pos][k + 1..], 0)
    {
      hide Formed;
      var chain := chains[pos];
      var tail := chain[k + 1..];
      assert Linked(chain);
      forall i, j | 0 <= i <= k && 0 <= j < |tail| ensures tail[j] != chain[i] {
        if tail[j] == chain[i] {
          NodesDiffer(chains, pos, i, pos, k + 1 + j);
        }
      }
    }

    method Del(hashCode: int) returns (contain: Option<T>)
      requires Valid()
      modifies this`chains, node, Repr()
      ensures Valid() && Repr() <= old(Repr())
      ensures (Contents(), contain) == HashTables.Del(old(Contents()), hashCode)
    {
      hide Formed, Position, Linked;
      var pos := PositionOf(hashCode);
      ghost var chain, k := chains[pos], IndexIn(Entries(chains[pos]), hashCode);
      DelKeepsFormed(Contents(), hashCode);
      var pre, n := Find(pos, hashCode);
      if n == null {
        return None;
      }
      if pre != null {
        TailIsLinked(pos, k);
        Relink(pre, n.next, pos, k - 1, chain[k + 1..]);
      } else {
        DropChain(pos);
      }
      assert Entries(chains[pos]) == Shortened(Entries(chain), k);
      assert Contents() == old(Contents())[pos := Entries(chains[pos])];
      return Some(n.contain);
    }
  }
}
