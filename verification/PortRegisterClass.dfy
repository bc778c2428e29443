/** The port register with its table of held-back ports updated in place by scanning
    loops; the records are a chained hash table as HashTables describes it. */
module PortRegisterClass {
  import opened HashTables
  import opened PortRegister
  import opened Options

  class Registry {
    const portReserve: array<bool>
    var records: Table<Record>

    ghost predicate Valid() {
      portReserve.Length == RESERVE_SIZE
    }

    ghost function View(): Register
      requires Valid()
      reads this, portReserve
    {
      Register(portReserve[..], records)
    }

    // Before its main loop the register asks which ports are in use.
    constructor (inUse: int -> bool)
      ensures Valid() && fresh(portReserve) && View() == Start(inUse)
    {
      portReserve := new bool[RESERVE_SIZE](_ => false);
      records := Empty(RECORD_BUCKETS);
      new;
      CheckPortReserve(inUse);
    }

    method GetNextPort() returns (port: int)
      requires Valid()
      modifies portReserve
      ensures var i := FirstFree(old(portReserve[..]), 0);
        && port == (if i == RESERVE_SIZE then -1 else PortNumber(i))
        && portReserve[..] == if i == RESERVE_SIZE then old(portReserve[..]) else old(portReserve[..])[i := true]
    {
      var i := 0;
      while i < RESERVE_SIZE
        invariant i <= RESERVE_SIZE && portReserve[..] == old(portReserve[..])
        invariant FirstFree(portReserve[..], 0) == FirstFree(portReserve[..], i)
      {
        if !portReserve[i] {
          portReserve[i] := true;
          return i + REGISTER_PORT + 1;
        }
        i := i + 1;
      }
      return -1;
    }

    method BookPort(name: Name) returns (port: int)
      requires Valid()
      modifies this, portReserve
      ensures Valid() && (View(), port) == PortRegister.BookPort(old(View()), name)
    {
      hide HashCode;
      var code := HashCode(name);
      var r := Get(records, code);
      port := GetNextPort();
      if port == -1 {
        return;
      }
      if r == None {
        records := Put(records, Record(name, port), code).0;
      } else {
        records := Overwrite(records, code, r.value.(port := port));
      }
    }

    method GetPort(name: Name) returns (port: int)
      requires Valid()
      ensures port == PortRegister.GetPort(View(), name)
    {
      var r := Get(records, HashCode(name));
      if r == None {
        return -1;
      }
      return r.value.port;
    }

    method WebPort(name: Name) returns (port: int)
      requires Valid()
      modifies this, portReserve
      ensures Valid() && (View(), port) == PortRegister.WebPort(old(View()), name)
    {
      port := GetPort(name);
      if port == -1 {
        port := BookPort(name);
      }
    }

    method CheckPortReserve(inUse: int -> bool)
      requires Valid()
      modifies portReserve
      ensures portReserve[..] == Checked(inUse)
    {
      var i := 0;
      while i < RESERVE_SIZE
        invariant i <= RESERVE_SIZE
        invariant forall j :: 0 <= j < i ==> portReserve[j] == inUse(PortNumber(j))
      {
        var state := inUse(i + REGISTER_PORT + 1);
        if state != portReserve[i] {
          portReserve[i] := state;
        }
        i := i + 1;
      }
    }

    // The scan of one bucket follows the nodes that were linked when it began.
    method CleanChain(pos: nat, scan: int -> bool)
      requires Valid() && Formed(records) && pos < |records|
      requires forall e :: e in records[pos] ==> InRange(e.contain.port)
      modifies this`records, portReserve
      ensures Formed(records)
      ensures records == old(records)[pos := CleanedChain(old(records[pos]), scan)]
    {
      hide Formed, Position, Remaining, IndexIn;
      var chain := records[pos];
      var k := 0;
      RemainingNoneAndAll(chain, scan);
      assert old(records)[pos := chain] == old(records);
      while k < |chain|
        invariant k <= |chain| && Formed(records) && |records| == old(|records|)
        invariant records == old(records)[pos := Remaining(chain, k, scan)]
      {
        var n := chain[k];
        if scan(n.contain.port) {
          RemainingSame(chain, k, scan);
        } else {
          portReserve[n.contain.port - 1 - REGISTER_PORT] := false;
          DelDuringScan(old(records), records, pos, k, scan);
          DelKeepsFormed(records, n.code);
          records := Del(records, n.code).0;
        }
        k := k + 1;
      }
    }

    method CleanPortReserve(scan: int -> bool, check: int -> bool)
      requires Valid() && Formed(records) && AllInRange(records)
      modifies this`records, portReserve
      ensures View() == Clean(old(View()), scan, check)
    {
      var i := 0;
      var t := records;
      while i < |records|
        invariant i <= |records| == |t| && Formed(records)
        invariant forall b :: 0 <= b < |t| ==> records[b] == if b < i then CleanedChain(t[b], scan) else t[b]
      {
        InRangeInChains(t, i);
        CleanChain(i, scan);
        i := i + 1;
      }
      assert records == Cleaned(t, scan);
      CheckPortReserve(check);
    }
  }

  // What is left of a chain when k of its nodes have been scanned.
  function Remaining(chain: Chain<Record>, k: nat, scan: int -> bool): Chain<Record>
    requires k <= |chain|
  {
    if k > 0 && !scan(chain[0].contain.port) then [] else Busy(chain[..k], scan) + chain[k..]
  }

  lemma {:induction false} BusyOneMore(chain: Chain<Record>, e: Entry<Record>, scan: int -> bool)
    ensures Busy(chain + [e], scan) == Busy(chain, scan) + (if scan(e.contain.port) then [e] else [])
  {
    if chain != [] {
      assert (chain + [e])[1..] == chain[1..] + [e];
      BusyOneMore(chain[1..], e, scan);
    }
  }

  lemma RemainingNoneAndAll(chain: Chain<Record>, scan: int -> bool)
    ensures Remaining(chain, 0, scan) == chain
    ensures Remaining(chain, |chain|, scan) == CleanedChain(chain, scan)
  {
    assert chain[..|chain|] == chain && chain[|chain|..] == [] && chain[0..] == chain;
    assert [] + chain == chain && Busy(chain, scan) + [] == Busy(chain, scan);
  }

  lemma BusyIsCut(chain: Chain<Record>, k: nat, scan: int -> bool)
    requires k < |chain|
    ensures Busy(chain[..k + 1], scan) ==
            Busy(chain[..k], scan) + (if scan(chain[k].contain.port) then [chain[k]] else [])
    ensures k > 0 && scan(chain[0].contain.port) ==>
            Busy(chain[..k], scan) != [] && Busy(chain[..k], scan)[0] == chain[0]
  {
    assert chain[..k + 1] == chain[..k] + [chain[k]];
    BusyOneMore(chain[..k], chain[k], scan);
  }

  lemma OneMovesOver(left: Chain<Record>, chain: Chain<Record>, k: nat)
    requires k < |chain|
    ensures left + chain[k..] == (left + [chain[k]]) + chain[k + 1..]
  {
    assert chain[k..] == [chain[k]] + chain[k + 1..];
    assert left + ([chain[k]] + chain[k + 1..]) == (left + [chain[k]]) + chain[k + 1..];
  }

  // A record that stays.
  lemma RemainingSame(chain: Chain<Record>, k: nat, scan: int -> bool)
    requires k < |chain| && scan(chain[k].contain.port)
    ensures Remaining(chain, k + 1, scan) == Remaining(chain, k, scan)
  {
    BusyIsCut(chain, k, scan);
    hide Busy;
    var left := Busy(chain[..k], scan);
    OneMovesOver(left, chain, k);
    if k == 0 {
      NoneBusy(chain, scan);
    }
  }

  lemma NoneBusy(chain: Chain<Record>, scan: int -> bool)
    ensures Busy(chain[..0], scan) == []
  {
  }

  // A record that goes, behind a head that stays.
  lemma RemainingLess(chain: Chain<Record>, k: nat, scan: int -> bool)
    requires 0 < k < |chain| && !scan(chain[k].contain.port) && scan(chain[0].contain.port)
    ensures var left := Busy(chain[..k], scan);
      && Remaining(chain, k, scan) == left + chain[k..] && left != [] && left[0] == chain[0]
      && Remaining(chain, k + 1, scan) == left + chain[k + 1..]
  {
    BusyIsCut(chain, k, scan);
    hide Busy;
    var left := Busy(chain[..k], scan);
    assert left + [] == left;
  }

  lemma DelAt(t: Table<Record>, pos: nat, k: nat, code: int)
    requires Formed(t) && pos < |t| && k < |t[pos]| && t[pos][k].code == code
    ensures Del(t, code).0 == t[pos := Shortened(t[pos], k)]
  {
    hide Shortened;
    assert Position(t[pos][k].code, |t|) == pos;
    FoundAt(t[pos], code, k);
  }

  lemma DelOfAbsent(t: Table<Record>, pos: nat, code: int)
    requires pos < |t| && t[pos] == [] && Position(code, |t|) == pos
    ensures Del(t, code).0 == t
  {
  }

  lemma DelDuringScan(t: Table<Record>, now: Table<Record>, pos: nat, k: nat, scan: int -> bool)
    requires Formed(t) && pos < |t| && k < |t[pos]| && !scan(t[pos][k].contain.port)
    requires now == t[pos := Remaining(t[pos], k, scan)] && Formed(now)
    ensures Del(now, t[pos][k].code).0 == t[pos := Remaining(t[pos], k + 1, scan)]
  {
    var chain, code := t[pos], t[pos][k].code;
    assert Position(code, |t|) == pos;
    hide Position, Formed, Del;
    var left := Busy(chain[..k], scan);
    if k == 0 {
      RemainingNoneAndAll(chain, scan);
      DelAt(now, pos, 0, code);
    } else if scan(chain[0].contain.port) {
      RemainingLess(chain, k, scan);
      assert now[pos][|left|] == chain[k];
      DelAt(now, pos, |left|, code);
      assert Shortened(now[pos], |left|) == left + chain[k + 1..];
    } else {
      DelOfAbsent(now, pos, code);
    }
  }

  lemma InRangeInChains(t: Table<Record>, pos: nat)
    requires Formed(t) && AllInRange(t) && pos < |t|
    ensures forall e :: e in t[pos] ==> InRange(e.contain.port)
  {
    forall e | e in t[pos] ensures InRange(e.contain.port) {
      var k :| 0 <= k < |t[pos]| && t[pos][k] == e;
      assert Position(t[pos][k].code, |t|) == pos;
      FoundAt(t[pos], e.code, k);
      assert Get(t, e.code) == Some(e.contain);
    }
  }
}
