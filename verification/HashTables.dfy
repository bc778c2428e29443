/** The chained hash table as a value: what each operation does to the chains, and what
    that is to a reader who thinks of a map. */
module HashTables {
  import opened Options

  datatype Entry<T> = Entry(code: int, contain: T)

  type Chain<T> = seq<Entry<T>>

  type Table<T> = t: seq<Chain<T>> | |t| > 0 witness [[]]

  // The % of C, which takes the sign of its left operand.
  function CRemainder(a: int, n: int): int
    requires n > 0
  {
    if a >= 0 then a % n else -(-a % n)
  }

  // It leaves a multiple of the divisor and is smaller than that.
  lemma CRemainderTruncates(a: int, n: int)
    requires n > 0
    ensures a >= 0 ==> 0 <= CRemainder(a, n) < n
    ensures a <= 0 ==> -n < CRemainder(a, n) <= 0
    ensures exists q: int :: a == n * q + CRemainder(a, n)
  {
    if a >= 0 {
      assert a == n * (a / n) + CRemainder(a, n);
    } else {
      assert -a == n * (-a / n) + (-a % n);
      assert a == n * -(-a / n) + CRemainder(a, n);
    }
  }

  function Position(code: int, n: int): (pos: nat)
    requires n > 0
    ensures pos < n
  {
    var pos := CRemainder(code, n);
    if pos < 0 then n + pos else pos
  }

  // After the correction negative codes land where the mathematical remainder says.
  lemma PositionIsModulo(code: int, n: int)
    requires n > 0
    ensures Position(code, n) == code % n
  {
    if code < 0 {
      var q, r := -code / n, -code % n;
      assert code == n * (-q) - r;
      if r == 0 {
        RemainderIs(code, n, -q, 0);
      } else {
        assert code == n * (-q - 1) + (n - r);
        RemainderIs(code, n, -q - 1, n - r);
      }
    }
  }

  lemma TimesAtLeastOne(n: int, d: int)
    requires n > 0
    ensures d >= 1 ==> n * d >= n
    ensures d <= -1 ==> n * d <= -n
  {
    if d <= -1 {
      assert n * d == -(n * -d);
    }
  }

  lemma RemainderIs(a: int, n: int, q: int, r: int)
    requires n > 0 && 0 <= r < n && a == n * q + r
    ensures a % n == r
  {
    var q', r' := a / n, a % n;
    assert n * (q' - q) == r - r' by {
      assert a == n * q' + r';
    }
    TimesAtLeastOne(n, q' - q);
    assert q' - q == 0;
  }

  function Empty<T>(n: nat): (t: Table<T>)
    requires n > 0
    ensures |t| == n && forall b :: 0 <= b < n ==> t[b] == []
  {
    seq(n, _ => [])
  }

  // Where a code stands in a chain, or the chain's length.
  function IndexIn<T>(chain: Chain<T>, code: int): (k: nat)
    ensures k <= |chain|
    ensures k < |chain| ==> chain[k].code == code
    ensures forall j :: 0 <= j < k ==> chain[j].code != code
  {
    if chain == [] || chain[0].code == code then 0 else 1 + IndexIn(chain[1..], code)
  }

  function ChainOf<T>(t: Table<T>, code: int): Chain<T> {
    t[Position(code, |t|)]
  }

  predicate Has<T>(t: Table<T>, code: int) {
    IndexIn(ChainOf(t, code), code) < |ChainOf(t, code)|
  }

  // Every entry is in the chain of its code, and no chain has a code twice.
  ghost predicate Formed<T>(t: Table<T>) {
    && (forall b, k :: 0 <= b < |t| && 0 <= k < |t[b]| ==> Position(t[b][k].code, |t|) == b)
    && (forall b, j, k :: 0 <= b < |t| && 0 <= j < k < |t[b]| ==> t[b][j].code != t[b][k].code)
  }

  // ---------------------------------------------------------------- operations

  function Put<T>(t: Table<T>, contain: T, code: int): (Table<T>, bool) {
    if Has(t, code) then (t, false)
    else (t[Position(code, |t|) := ChainOf(t, code) + [Entry(code, contain)]], true)
  }

  function Get<T>(t: Table<T>, code: int): Option<T> {
    if Has(t, code) then Some(ChainOf(t, code)[IndexIn(ChainOf(t, code), code)].contain) else None
  }

  // Deleting the first node of a chain sets the bucket to NULL, whatever came after it.
  function Shortened<T>(chain: Chain<T>, k: nat): Chain<T>
    requires k < |chain|
  {
    if k == 0 then [] else chain[..k] + chain[k + 1..]
  }

  function Del<T>(t: Table<T>, code: int): (Table<T>, Option<T>) {
    if Has(t, code) then
      (t[Position(code, |t|) := Shortened(ChainOf(t, code), IndexIn(ChainOf(t, code), code))], Get(t, code))
    else (t, None)
  }

  // ---------------------------------------------------------------- as a map

  ghost function Codes<T>(t: Table<T>): set<int> {
    set b, k | 0 <= b < |t| && 0 <= k < |t[b]| :: t[b][k].code
  }

  ghost function View<T>(t: Table<T>): map<int, T> {
    map code | code in Codes(t) && Has(t, code) :: Get(t, code).value
  }

  lemma GetReadsTheMap<T>(t: Table<T>, code: int)
    ensures Has(t, code) <==> code in View(t)
    ensures Get(t, code) == if code in View(t) then Some(View(t)[code]) else None
  {
    if Has(t, code) {
      assert t[Position(code, |t|)][IndexIn(ChainOf(t, code), code)].code == code;
    }
  }

  lemma FoundAt<T>(chain: Chain<T>, code: int, k: nat)
    requires k < |chain| && chain[k].code == code
    requires forall j :: 0 <= j < k ==> chain[j].code != code
    ensures IndexIn(chain, code) == k
  {
  }

  lemma OtherChains<T>(t: Table<T>, pos: nat, chain: Chain<T>, code: int)
    requires pos < |t| && Position(code, |t|) != pos
    ensures Get(t[pos := chain], code) == Get(t, code)
    ensures Has(t[pos := chain], code) == Has(t, code)
  {
  }

  lemma PutIntoChain<T>(chain: Chain<T>, entry: Entry<T>, code: int)
    requires IndexIn(chain, entry.code) == |chain|
    ensures IndexIn(chain + [entry], code) == if code == entry.code then |chain| else
            if IndexIn(chain, code) < |chain| then IndexIn(chain, code) else |chain| + 1
  {
    var longer := chain + [entry];
    assert forall j :: 0 <= j < |chain| ==> longer[j] == chain[j];
    if code == entry.code {
      FoundAt(longer, code, |chain|);
    } else if IndexIn(chain, code) < |chain| {
      FoundAt(longer, code, IndexIn(chain, code));
    } else {
      assert forall j :: 0 <= j < |longer| ==> longer[j].code != code;
    }
  }

  lemma PutKeepsFormed<T>(t: Table<T>, contain: T, code: int)
    requires Formed(t)
    ensures Formed(Put(t, contain, code).0)
  {
  }

  // put adds the key, unless it is there already: then it changes nothing and says so.
  lemma PutRefinesTheMap<T>(t: Table<T>, contain: T, code: int)
    requires Formed(t)
    ensures var (t', ok) := Put(t, contain, code);
      && Formed(t') && ok == (code !in View(t))
      && View(t') == if ok then View(t)[code := contain] else View(t)
  {
    var (t', ok) := Put(t, contain, code);
    PutKeepsFormed(t, contain, code);
    GetReadsTheMap(t, code);
    if ok {
      forall c ensures Get(t', c) == if c == code then Some(contain) else Get(t, c) {
        if Position(c, |t|) == Position(code, |t|) {
          PutIntoChain(ChainOf(t, code), Entry(code, contain), c);
        } else {
          OtherChains(t, Position(code, |t|), ChainOf(t', code), c);
        }
      }
      MapsAgree(t', View(t)[code := contain], t);
    }
  }

  // Two ways to say the same map.
  lemma MapsAgree<T>(t': Table<T>, m: map<int, T>, t: Table<T>)
    requires forall c :: Get(t', c) == if c in m then Some(m[c]) else None
    ensures View(t') == m
  {
    forall c ensures c in View(t') <==> c in m
             ensures c in m ==> View(t')[c] == m[c] {
      GetReadsTheMap(t', c);
    }
  }

  // ---------------------------------------------------------------- deletion

  // The code stands first in a chain that has more.
  predicate HeadsLongerChain<T>(t: Table<T>, code: int) {
    |ChainOf(t, code)| > 1 && ChainOf(t, code)[0].code == code
  }

  ghost predicate FormedChain<T>(chain: Chain<T>) {
    forall j, k :: 0 <= j < k < |chain| ==> chain[j].code != chain[k].code
  }

  lemma CutFromChain<T>(chain: Chain<T>, k: nat, code: int)
    requires FormedChain(chain) && 0 < k < |chain|
    ensures var i, i' := IndexIn(chain, code), IndexIn(Shortened(chain, k), code);
      && (code == chain[k].code ==> i' == |chain| - 1)
      && (code != chain[k].code && i < |chain| ==> i' < |chain| - 1 && Shortened(chain, k)[i'] == chain[i])
      && (i == |chain| ==> i' == |chain| - 1)
  {
    var shorter := Shortened(chain, k);
    var i := IndexIn(chain, code);
    assert forall j :: 0 <= j < |shorter| ==> shorter[j] == chain[if j < k then j else j + 1];
    if i == |chain| || i == k {
      assert forall j :: 0 <= j < |shorter| ==> shorter[j].code != code;
    } else {
      FoundAt(shorter, code, if i < k then i else i - 1);
    }
  }

  lemma CutKeepsFormedChain<T>(chain: Chain<T>, k: nat)
    requires FormedChain(chain) && k < |chain|
    ensures FormedChain(Shortened(chain, k))
    ensures forall j :: 0 <= j < |Shortened(chain, k)| ==> Shortened(chain, k)[j] in chain
  {
    var shorter := Shortened(chain, k);
    assert forall j :: 0 <= j < |shorter| ==> shorter[j] == chain[if j < k then j else j + 1];
  }

  lemma DelKeepsFormed<T>(t: Table<T>, code: int)
    requires Formed(t)
    ensures Formed(Del(t, code).0)
  {
    if Has(t, code) {
      assert FormedChain(ChainOf(t, code));
      hide Position, Shortened, IndexIn;
      CutKeepsFormedChain(ChainOf(t, code), IndexIn(ChainOf(t, code), code));
    }
  }

  // What a deletion takes with it.
  predicate Lost<T>(t: Table<T>, code: int, c: int) {
    c == code || (HeadsLongerChain(t, code) && Position(c, |t|) == Position(code, |t|))
  }

  lemma GetAfterDel<T>(t: Table<T>, code: int, c: int)
    requires Formed(t)
    ensures Get(Del(t, code).0, c) == if Lost(t, code, c) then None else Get(t, c)
  {
    var chain := ChainOf(t, code);
    var k := IndexIn(chain, code);
    if Has(t, code) {
      if Position(c, |t|) != Position(code, |t|) {
        OtherChains(t, Position(code, |t|), Shortened(chain, k), c);
      } else if k > 0 {
        CutFromChain(chain, k, c);
      }
    }
  }

  // del returns the key's value and removes it; all other keys that are still there have
  // kept theirs.
  lemma DelRemovesTheKey<T>(t: Table<T>, code: int)
    requires Formed(t)
    ensures var (t', value) := Del(t, code);
      && Formed(t') && value == (if code in View(t) then Some(View(t)[code]) else None)
      && (forall c :: c in View(t') <==> c in View(t) && !Lost(t, code, c))
      && (forall c :: c in View(t') ==> View(t')[c] == View(t)[c])
  {
    DelKeepsFormed(t, code);
    GetReadsTheMap(t, code);
    var t' := Del(t, code).0;
    forall c ensures c in View(t') <==> c in View(t) && !Lost(t, code, c)
             ensures c in View(t') ==> View(t')[c] == View(t)[c] {
      GetAfterDel(t, code, c);
      GetReadsTheMap(t, c);
      GetReadsTheMap(t', c);
    }
  }

  ghost function Without<T>(m: map<int, T>, key: int): map<int, T> {
    map c | c in m && c != key :: m[c]
  }

  // It is the removal of one key from the map exactly when that key does not head a
  // longer chain.
  lemma DelIsMapRemovalIff<T>(t: Table<T>, code: int)
    requires Formed(t)
    ensures View(Del(t, code).0) == Without(View(t), code) <==> !HeadsLongerChain(t, code)
  {
    hide View, Formed, Del, HeadsLongerChain, Position;
    DelRemovesTheKey(t, code);
    if HeadsLongerChain(t, code) {
      var c := SecondIsLost(t, code);
      assert c in Without(View(t), code);
    } else {
      assert forall c :: Lost(t, code, c) <==> c == code;
      OneKeyLess(View(Del(t, code).0), View(t), code);
    }
  }

  lemma OneKeyLess<T>(m': map<int, T>, m: map<int, T>, key: int)
    requires forall c :: c in m' <==> c in m && c != key
    requires forall c :: c in m' ==> m'[c] == m[c]
    ensures m' == Without(m, key)
  {
    var rest := Without(m, key);
    assert forall c :: c in rest <==> c in m';
    assert forall c :: c in m' ==> rest[c] == m'[c];
  }

  lemma SecondIsLost<T>(t: Table<T>, code: int) returns (c: int)
    requires Formed(t) && HeadsLongerChain(t, code)
    ensures c in View(t) && c != code && Lost(t, code, c)
  {
    c := ChainOf(t, code)[1].code;
    assert Position(c, |t|) == Position(code, |t|);
    FoundAt(ChainOf(t, c), c, 1);
    GetReadsTheMap(t, c);
  }

  // ---------------------------------------------------------------- whole histories

  datatype Op<T> = PutOp(contain: T, key: int) | GetOp(key: int) | DelOp(key: int)

  datatype Outcome<T> = Done(ok: bool) | Found(value: Option<T>)

  function Apply<T>(t: Table<T>, op: Op<T>): (Table<T>, Outcome<T>) {
    match op
    case PutOp(contain, key) => (Put(t, contain, key).0, Done(Put(t, contain, key).1))
    case GetOp(key) => (t, Found(Get(t, key)))
    case DelOp(key) => (Del(t, key).0, Found(Del(t, key).1))
  }

  ghost function MapApply<T>(m: map<int, T>, op: Op<T>): (map<int, T>, Outcome<T>)
  {
    match op
    case PutOp(contain, key) => if key in m then (m, Done(false)) else (m[key := contain], Done(true))
    case GetOp(key) => (m, Found(if key in m then Some(m[key]) else None))
    case DelOp(key) => (Without(m, key), Found(if key in m then Some(m[key]) else None))
  }

  function Execute<T>(n: nat, ops: seq<Op<T>>): (r: (Table<T>, seq<Outcome<T>>))
    requires n > 0
    ensures |r.1| == |ops|
  {
    if ops == [] then (Empty(n), [])
    else
      var before := Execute(n, ops[..|ops| - 1]);
      var (t, outcome) := Apply(before.0, ops[|ops| - 1]);
      (t, before.1 + [outcome])
  }

  ghost function MapExecute<T>(ops: seq<Op<T>>): (r: (map<int, T>, seq<Outcome<T>>))
    ensures |r.1| == |ops|
  {
    if ops == [] then (map[], [])
    else
      var before := MapExecute(ops[..|ops| - 1]);
      var (m, outcome) := MapApply(before.0, ops[|ops| - 1]);
      (m, before.1 + [outcome])
  }

  // No deletion of the history hits the head of a longer chain.
  ghost predicate LosesNothing<T>(n: nat, ops: seq<Op<T>>)
    requires n > 0
  {
    forall k :: 0 <= k < |ops| && ops[k].DelOp? ==> !HeadsLongerChain(Execute(n, ops[..k]).0, ops[k].key)
  }

  lemma ApplyRefinesTheMap<T>(t: Table<T>, op: Op<T>)
    requires Formed(t)
    ensures Formed(Apply(t, op).0) && Apply(t, op).1 == MapApply(View(t), op).1
    ensures View(Apply(t, op).0) == MapApply(View(t), op).0 <==> !(op.DelOp? && HeadsLongerChain(t, op.key))
  {
    match op
    case PutOp(contain, key) => PutRefinesTheMap(t, contain, key);
    case GetOp(key) => GetReadsTheMap(t, key);
    case DelOp(key) =>
      DelRemovesTheKey(t, key);
      DelIsMapRemovalIff(t, key);
  }

  // At every moment the table is the map the same operations would have built.
  ghost predicate TracksTheMap<T(!new)>(n: nat, ops: seq<Op<T>>)
    requires n > 0
  {
    forall k :: 0 <= k <= |ops| ==> View(Execute(n, ops[..k]).0) == MapExecute(ops[..k]).0
  }

  lemma {:induction false} HistoryKeepsFormed<T(!new)>(n: nat, ops: seq<Op<T>>)
    requires n > 0
    ensures Formed(Execute(n, ops).0)
  {
    if ops != [] {
      HistoryKeepsFormed(n, ops[..|ops| - 1]);
      ApplyRefinesTheMap(Execute(n, ops[..|ops| - 1]).0, ops[|ops| - 1]);
    }
  }

  // The last operation of the history loses more than its key.
  ghost predicate LastLoses<T>(n: nat, ops: seq<Op<T>>)
    requires n > 0 && ops != []
  {
    var last := ops[|ops| - 1];
    last.DelOp? && HeadsLongerChain(Execute(n, ops[..|ops| - 1]).0, last.key)
  }

  lemma TracksOneMore<T(!new)>(n: nat, ops: seq<Op<T>>)
    requires n > 0 && ops != []
    ensures var front := ops[..|ops| - 1];
      && (TracksTheMap(n, ops) <==> (TracksTheMap(n, front) && View(Execute(n, ops).0) == MapExecute(ops).0))
      && (TracksTheMap(n, front) ==> View(Execute(n, front).0) == MapExecute(front).0)
      && (LosesNothing(n, ops) <==> (LosesNothing(n, front) && !LastLoses(n, ops)))
  {
    hide View, Execute, MapExecute, HeadsLongerChain;
    var front := ops[..|ops| - 1];
    assert ops[..|ops|] == ops && front[..|front|] == front;
    assert forall k :: 0 <= k <= |front| ==> front[..k] == ops[..k];
  }

  lemma NoHistory<T(!new)>(n: nat)
    requires n > 0
    ensures TracksTheMap<T>(n, []) && LosesNothing<T>(n, [])
  {
    MapsAgree(Empty<T>(n), map[], Empty<T>(n));
  }

  lemma LastOperation<T(!new)>(n: nat, ops: seq<Op<T>>)
    requires n > 0 && ops != []
    requires var front := ops[..|ops| - 1]; View(Execute(n, front).0) == MapExecute(front).0
    ensures View(Execute(n, ops).0) == MapExecute(ops).0 <==> !LastLoses(n, ops)
    ensures Execute(n, ops[..|ops| - 1]).1 == MapExecute(ops[..|ops| - 1]).1 ==> Execute(n, ops).1 == MapExecute(ops).1
  {
    hide View, Apply, MapApply, HeadsLongerChain, Formed;
    var front := ops[..|ops| - 1];
    HistoryKeepsFormed(n, front);
    ApplyRefinesTheMap(Execute(n, front).0, ops[|ops| - 1]);
  }

  // A history of puts, gets and deletions is one of a map, with the same outcomes,
  // exactly when no deletion hits the head of a longer chain.
  lemma {:induction false} HistoryIsThatOfAMapIff<T(!new)>(n: nat, ops: seq<Op<T>>)
    requires n > 0
    ensures TracksTheMap(n, ops) <==> LosesNothing(n, ops)
    ensures LosesNothing(n, ops) ==> Execute(n, ops).1 == MapExecute(ops).1
  {
    hide TracksTheMap, LosesNothing, LastLoses, View;
    if ops == [] {
      NoHistory<T>(n);
    } else {
      hide Execute, MapExecute;
      HistoryIsThatOfAMapIff(n, ops[..|ops| - 1]);
      TracksOneMore(n, ops);
      if TracksTheMap(n, ops[..|ops| - 1]) {
        LastOperation(n, ops);
      }
    }
  }

  // Such a deletion in a history of four operations: the code 1 + n lands behind 1, and
  // goes with it.
  function LossyHistory<T>(n: nat, x: T, y: T): seq<Op<T>> {
    [PutOp(x, 1), PutOp(y, 1 + n), DelOp(1), GetOp(1 + n)]
  }

  lemma SameBucket(n: nat)
    requires n > 0
    ensures Position(1 + n, n) == Position(1, n)
  {
    PositionIsModulo(1, n);
    PositionIsModulo(1 + n, n);
    RemainderIs(1 + n, n, 1 / n + 1, 1 % n);
  }

  lemma ExecuteOneMore<T>(n: nat, ops: seq<Op<T>>, op: Op<T>)
    requires n > 0
    ensures Execute(n, ops + [op]) ==
            (Apply(Execute(n, ops).0, op).0, Execute(n, ops).1 + [Apply(Execute(n, ops).0, op).1])
  {
    assert (ops + [op])[..|ops|] == ops;
  }

  lemma LossyOnTables<T>(n: nat, x: T, y: T)
    requires n > 0
    ensures var t0, pos, e, e' := Empty<T>(n), Position(1, n), Entry(1, x), Entry(1 + n, y);
      var t1, t2, t3 := t0[pos := [e]], t0[pos := [e, e']], t0[pos := []];
      && Put(t0, x, 1) == (t1, true) && Put(t1, y, 1 + n) == (t2, true)
      && Del(t2, 1) == (t3, Some(x)) && HeadsLongerChain(t2, 1) && Get(t3, 1 + n) == None
  {
    var t0, pos, e, e' := Empty<T>(n), Position(1, n), Entry(1, x), Entry(1 + n, y);
    SameBucket(n);
    hide Position;
    assert [] + [e] == [e] && [e] + [e'] == [e, e'];
    var t1, t2, t3 := t0[pos := [e]], t0[pos := [e, e']], t0[pos := []];
    assert t1[pos := [e, e']] == t2 && t2[pos := []] == t3;
  }

  lemma LossyHistoryLoses<T(!new)>(n: nat, x: T, y: T)
    requires n > 0
    ensures !LosesNothing(n, LossyHistory(n, x, y))
    ensures Execute(n, LossyHistory(n, x, y)).1 == [Done(true), Done(true), Found(Some(x)), Found(None)]
  {
    var ops := LossyHistory(n, x, y);
    LossyOnTables(n, x, y);
    NoOperation<T>(n);
    hide Execute, Position, Put, Get, Del, HeadsLongerChain, Empty;
    assert ops[..1] == [] + [ops[0]] && ops[..2] == ops[..1] + [ops[1]];
    assert ops[..3] == ops[..2] + [ops[2]] && ops == ops[..3] + [ops[3]];
    ExecuteOneMore(n, [], ops[0]);
    ExecuteOneMore(n, ops[..1], ops[1]);
    ExecuteOneMore(n, ops[..2], ops[2]);
    ExecuteOneMore(n, ops[..3], ops[3]);
    assert ops[2].DelOp? && HeadsLongerChain(Execute(n, ops[..2]).0, ops[2].key);
  }

  lemma NoOperation<T>(n: nat)
    requires n > 0
    ensures Execute<T>(n, []) == (Empty(n), [])
  {
  }
}
