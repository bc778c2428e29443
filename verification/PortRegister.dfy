/** The port register as a value: which ports it holds back, which records it keeps, and
    when no two records can share a port. */
module PortRegister {
  import opened HashTables
  import opened Options

  const RESERVE_SIZE := 512
  const REGISTER_PORT := 2500
  const RECORD_BUCKETS := 100

  type Name = seq<int>

  datatype Record = Record(name: Name, port: int)

  type Reserve = r: seq<bool> | |r| == RESERVE_SIZE witness seq(RESERVE_SIZE, _ => false)

  datatype Register = Register(reserve: Reserve, records: Table<Record>)

  function PortNumber(i: nat): int {
    i + REGISTER_PORT + 1
  }

  // Signed 32-bit arithmetic that wraps.
  function Wrap(x: int): int {
    (x + 0x8000_0000) % 0x1_0000_0000 - 0x8000_0000
  }

  function HashCode(name: Name): int {
    if name == [] then 1
    else
      var code := HashCode(name[..|name| - 1]);
      Wrap(Wrap(code * code) + name[|name| - 1])
  }

  function FirstFree(reserve: seq<bool>, from: nat): (i: nat)
    requires from <= |reserve|
    ensures from <= i <= |reserve| && (i < |reserve| ==> !reserve[i])
    ensures forall j :: from <= j < i ==> reserve[j]
    decreases |reserve| - from
  {
    if from == |reserve| || !reserve[from] then from else FirstFree(reserve, from + 1)
  }

  // ---------------------------------------------------------------- operations

  // Writing through the pointer that get_from_hash handed out.
  function Overwrite<T>(t: Table<T>, code: int, contain: T): Table<T>
    requires Has(t, code)
  {
    var pos, k := Position(code, |t|), IndexIn(ChainOf(t, code), code);
    t[pos := t[pos][k := Entry(code, contain)]]
  }

  function Stored(t: Table<Record>, name: Name, port: int): Table<Record> {
    var code := HashCode(name);
    match Get(t, code)
    case None => Put(t, Record(name, port), code).0
    case Some(r) => Overwrite(t, code, r.(port := port))
  }

  // A name that has a port already gets a new one; -1 means no port is left.
  function BookPort(s: Register, name: Name): (Register, int) {
    var i := FirstFree(s.reserve, 0);
    if i == RESERVE_SIZE then (s, -1)
    else (Register(s.reserve[i := true], Stored(s.records, name, PortNumber(i))), PortNumber(i))
  }

  function GetPort(s: Register, name: Name): int {
    match Get(s.records, HashCode(name))
    case None => -1
    case Some(r) => r.port
  }

  function WebPort(s: Register, name: Name): (Register, int) {
    if GetPort(s, name) == -1 then BookPort(s, name) else (s, GetPort(s, name))
  }

  // inUse says of each port whether bind fails on it.
  function Checked(inUse: int -> bool): (r: Reserve) {
    seq(RESERVE_SIZE, i requires 0 <= i < RESERVE_SIZE => inUse(PortNumber(i)))
  }

  function Busy(chain: Chain<Record>, inUse: int -> bool): (b: Chain<Record>)
    ensures forall e :: e in b <==> e in chain && inUse(e.contain.port)
  {
    if chain == [] then []
    else (if inUse(chain[0].contain.port) then [chain[0]] else []) + Busy(chain[1..], inUse)
  }

  // Deleting the head of a bucket empties it; the nodes after it are still visited, but
  // they are in the table no more.
  function CleanedChain(chain: Chain<Record>, inUse: int -> bool): Chain<Record> {
    if chain != [] && !inUse(chain[0].contain.port) then [] else Busy(chain, inUse)
  }

  function Cleaned(t: Table<Record>, inUse: int -> bool): (t': Table<Record>)
    ensures |t'| == |t|
  {
    seq(|t|, b requires 0 <= b < |t| => CleanedChain(t[b], inUse))
  }

  // One clean pass: bind answers while records are scanned, then again for all ports.
  function Clean(s: Register, scan: int -> bool, check: int -> bool): Register {
    Register(Checked(check), Cleaned(s.records, scan))
  }

  datatype Request = Book(name: Name) | Ask(name: Name) | Web(name: Name) | Tidy(scan: int -> bool, check: int -> bool)

  ghost function Step(s: Register, q: Request): Register {
    match q
    case Book(name) => BookPort(s, name).0
    case Ask(_) => s
    case Web(name) => WebPort(s, name).0
    case Tidy(scan, check) => Clean(s, scan, check)
  }

  ghost function Start(inUse: int -> bool): Register {
    Register(Checked(inUse), Empty(RECORD_BUCKETS))
  }

  ghost function Run(inUse: int -> bool, reqs: seq<Request>): Register {
    if reqs == [] then Start(inUse) else Step(Run(inUse, reqs[..|reqs| - 1]), reqs[|reqs| - 1])
  }

  // ---------------------------------------------------------------- safety

  predicate InRange(port: int) {
    REGISTER_PORT < port <= REGISTER_PORT + RESERVE_SIZE
  }

  predicate IsReserved(s: Register, port: int) {
    InRange(port) && s.reserve[port - 1 - REGISTER_PORT]
  }

  // Every record's port is held back.
  ghost predicate Covered(s: Register) {
    forall c :: Get(s.records, c).Some? ==> IsReserved(s, Get(s.records, c).value.port)
  }

  ghost predicate Apart(t: Table<Record>, c: int, d: int) {
    Get(t, c).Some? && Get(t, d).Some? && c != d ==> Get(t, c).value.port != Get(t, d).value.port
  }

  ghost predicate Distinct(t: Table<Record>) {
    forall c, d :: Apart(t, c, d)
  }

  ghost predicate AllInRange(t: Table<Record>) {
    forall c :: Get(t, c).Some? ==> InRange(Get(t, c).value.port)
  }

  ghost predicate Safe(s: Register) {
    Formed(s.records) && AllInRange(s.records) && Distinct(s.records) && Covered(s)
  }

  // ---------------------------------------------------------------- what each operation leaves

  lemma GetAfterPut<T>(t: Table<T>, contain: T, code: int, c: int)
    requires Formed(t) && !Has(t, code)
    ensures Get(Put(t, contain, code).0, c) == if c == code then Some(contain) else Get(t, c)
  {
    if Position(c, |t|) == Position(code, |t|) {
      PutIntoChain(ChainOf(t, code), Entry(code, contain), c);
    } else {
      OtherChains(t, Position(code, |t|), ChainOf(Put(t, contain, code).0, code), c);
    }
  }

  lemma SameCodes<T>(chain: Chain<T>, chain': Chain<T>, c: int)
    requires |chain| == |chain'| && forall k :: 0 <= k < |chain| ==> chain'[k].code == chain[k].code
    ensures IndexIn(chain', c) == IndexIn(chain, c)
  {
    if IndexIn(chain, c) < |chain| {
      FoundAt(chain', c, IndexIn(chain, c));
    }
  }

  lemma GetAfterOverwrite<T>(t: Table<T>, code: int, contain: T, c: int)
    requires Formed(t) && Has(t, code)
    ensures Formed(Overwrite(t, code, contain))
    ensures Get(Overwrite(t, code, contain), c) == if c == code then Some(contain) else Get(t, c)
  {
    hide IndexIn, Position;
    var t' := Overwrite(t, code, contain);
    assert forall b, k :: 0 <= b < |t| && 0 <= k < |t[b]| ==> |t[b]| == |t'[b]| && t'[b][k].code == t[b][k].code;
    SameCodes(ChainOf(t, c), ChainOf(t', c), c);
  }

  lemma GetAfterStored(t: Table<Record>, name: Name, port: int, c: int)
    requires Formed(t)
    ensures var t' := Stored(t, name, port);
      && Formed(t') && Get(t', HashCode(name)).Some? && Get(t', HashCode(name)).value.port == port
      && (c != HashCode(name) ==> Get(t', c) == Get(t, c))
  {
    hide HashCode, Position, IndexIn;
    var code := HashCode(name);
    if Has(t, code) {
      GetAfterOverwrite(t, code, Get(t, code).value.(port := port), c);
      GetAfterOverwrite(t, code, Get(t, code).value.(port := port), code);
    } else {
      PutKeepsFormed(t, Record(name, port), code);
      GetAfterPut(t, Record(name, port), code, c);
      GetAfterPut(t, Record(name, port), code, code);
    }
  }

  lemma NewPortIsUnused(s: Register, name: Name, c: int)
    requires Safe(s) && Get(s.records, c).Some? && FirstFree(s.reserve, 0) < RESERVE_SIZE
    ensures Get(s.records, c).value.port != PortNumber(FirstFree(s.reserve, 0))
  {
    assert IsReserved(s, Get(s.records, c).value.port);
  }

  // A booking is refused exactly when every port is held back; otherwise the port handed
  // out was free and belongs to no other record.
  lemma BookedPortIsFresh(s: Register, name: Name)
    requires Safe(s)
    ensures var (s', port) := BookPort(s, name);
      && (port == -1 <==> forall i :: 0 <= i < RESERVE_SIZE ==> s.reserve[i])
      && (port == -1 ==> s' == s)
      && (port != -1 ==> InRange(port) && !IsReserved(s, port) && IsReserved(s', port) && GetPort(s', name) == port
                         && forall c :: Get(s.records, c).Some? ==> Get(s.records, c).value.port != port)
  {
    if FirstFree(s.reserve, 0) < RESERVE_SIZE {
      GetAfterStored(s.records, name, PortNumber(FirstFree(s.reserve, 0)), HashCode(name));
      forall c | Get(s.records, c).Some? ensures Get(s.records, c).value.port != PortNumber(FirstFree(s.reserve, 0)) {
        NewPortIsUnused(s, name, c);
      }
    }
  }

  lemma BookKeepsSafe(s: Register, name: Name)
    requires Safe(s)
    ensures Safe(BookPort(s, name).0)
  {
    hide HashCode, Stored, FirstFree, Position, Formed, Get;
    var i := FirstFree(s.reserve, 0);
    if i < RESERVE_SIZE {
      var t' := Stored(s.records, name, PortNumber(i));
      GetAfterStored(s.records, name, PortNumber(i), HashCode(name));
      forall c | Get(t', c).Some? ensures IsReserved(BookPort(s, name).0, Get(t', c).value.port) {
        GetAfterStored(s.records, name, PortNumber(i), c);
      }
      forall c, d ensures Apart(t', c, d) {
        GetAfterStored(s.records, name, PortNumber(i), c);
        GetAfterStored(s.records, name, PortNumber(i), d);
        assert Apart(s.records, c, d);
        if Get(s.records, c).Some? {
          NewPortIsUnused(s, name, c);
        }
        if Get(s.records, d).Some? {
          NewPortIsUnused(s, name, d);
        }
      }
    }
  }

  // ---------------------------------------------------------------- cleaning

  function Lookup<T>(chain: Chain<T>, c: int): Option<T> {
    if IndexIn(chain, c) < |chain| then Some(chain[IndexIn(chain, c)].contain) else None
  }

  lemma {:induction false} BusyIsFormed(chain: Chain<Record>, inUse: int -> bool)
    requires FormedChain(chain)
    ensures FormedChain(Busy(chain, inUse))
  {
    if chain != [] {
      var rest := Busy(chain[1..], inUse);
      BusyIsFormed(chain[1..], inUse);
      forall k | 0 <= k < |rest| ensures rest[k].code != chain[0].code {
        assert rest[k] in chain[1..];
      }
    }
  }

  lemma BusyUnfolds(chain: Chain<Record>, inUse: int -> bool)
    ensures chain == [] ==> Busy(chain, inUse) == chain
    ensures chain != [] && inUse(chain[0].contain.port) ==> Busy(chain, inUse) == [chain[0]] + Busy(chain[1..], inUse)
    ensures chain != [] && !inUse(chain[0].contain.port) ==> Busy(chain, inUse) == Busy(chain[1..], inUse)
  {
  }

  lemma {:induction false} LookupBusy(chain: Chain<Record>, inUse: int -> bool, c: int)
    requires FormedChain(chain)
    ensures Lookup(Busy(chain, inUse), c) ==
            if Lookup(chain, c).Some? && inUse(Lookup(chain, c).value.port) then Lookup(chain, c) else None
  {
    hide IndexIn, FormedChain, Busy;
    BusyUnfolds(chain, inUse);
    if chain != [] {
      hide Lookup;
      TailIsFormed(chain);
      LookupBusy(chain[1..], inUse, c);
      LookupFirst(chain, c);
      if inUse(chain[0].contain.port) {
        LookupFirst([chain[0]] + Busy(chain[1..], inUse), c);
        assert ([chain[0]] + Busy(chain[1..], inUse))[1..] == Busy(chain[1..], inUse);
      } else if c == chain[0].code {
        NotInRest(chain, c);
      }
    }
  }

  lemma TailIsFormed<T>(chain: Chain<T>)
    requires FormedChain(chain) && chain != []
    ensures FormedChain(chain[1..])
  {
  }

  lemma NotInRest<T>(chain: Chain<T>, c: int)
    requires FormedChain(chain) && chain != [] && chain[0].code == c
    ensures Lookup(chain[1..], c) == None
  {
    assert forall k :: 0 <= k < |chain[1..]| ==> chain[1..][k].code != c;
  }

  lemma LookupFirst<T>(chain: Chain<T>, c: int)
    requires chain != []
    ensures Lookup(chain, c) == if chain[0].code == c then Some(chain[0].contain) else Lookup(chain[1..], c)
  {
  }

  // The record that heads the bucket of this code.
  function HeadOf(t: Table<Record>, c: int): Option<Record> {
    if ChainOf(t, c) == [] then None else Some(ChainOf(t, c)[0].contain)
  }

  // A clean pass leaves a record exactly when its port is in use and the head of its
  // bucket stays too.
  predicate Survives(t: Table<Record>, inUse: int -> bool, c: int) {
    Get(t, c).Some? && inUse(Get(t, c).value.port) && inUse(HeadOf(t, c).value.port)
  }

  lemma GetAfterClean(t: Table<Record>, inUse: int -> bool, c: int)
    requires Formed(t)
    ensures Get(Cleaned(t, inUse), c) == if Survives(t, inUse, c) then Get(t, c) else None
  {
    assert FormedChain(ChainOf(t, c));
    LookupBusy(ChainOf(t, c), inUse, c);
    assert Get(t, c) == Lookup(ChainOf(t, c), c);
    assert Get(Cleaned(t, inUse), c) == Lookup(CleanedChain(ChainOf(t, c), inUse), c);
  }

  lemma CleanKeepsFormed(t: Table<Record>, inUse: int -> bool)
    requires Formed(t)
    ensures Formed(Cleaned(t, inUse))
  {
    var t' := Cleaned(t, inUse);
    forall b | 0 <= b < |t| ensures FormedChain(t'[b]) && forall e :: e in t'[b] ==> e in t[b] {
      assert FormedChain(t[b]);
      BusyIsFormed(t[b], inUse);
    }
    forall b, k | 0 <= b < |t| && 0 <= k < |t'[b]| ensures Position(t'[b][k].code, |t|) == b {
      assert t'[b][k] in t[b];
    }
  }

  // The second round of bind calls still finds the port of every surviving record in use.
  ghost predicate PassAgrees(s: Register, scan: int -> bool, check: int -> bool) {
    forall c :: Survives(s.records, scan, c) ==> check(Get(s.records, c).value.port)
  }

  // However many records a pass drops, the ports stay apart; and it keeps each remaining
  // one held back exactly when the two rounds of bind calls agree about it.
  lemma CleanKeepsSafeIff(s: Register, scan: int -> bool, check: int -> bool)
    requires Safe(s)
    ensures var s' := Clean(s, scan, check);
      && Formed(s'.records) && AllInRange(s'.records) && Distinct(s'.records)
      && (Safe(s') <==> PassAgrees(s, scan, check))
  {
    hide Formed, Get, Survives, Cleaned;
    var s' := Clean(s, scan, check);
    CleanKeepsFormed(s.records, scan);
    forall c ensures Get(s'.records, c) == if Survives(s.records, scan, c) then Get(s.records, c) else None {
      GetAfterClean(s.records, scan, c);
    }
    forall c | Survives(s.records, scan, c) ensures Get(s.records, c).Some? {
      SurvivorsAreRecords(s.records, scan, c);
    }
    forall c | Get(s'.records, c).Some? ensures InRange(Get(s'.records, c).value.port) &&
      (IsReserved(s', Get(s'.records, c).value.port) <==> check(Get(s'.records, c).value.port)) {
      CheckedAt(check, Get(s'.records, c).value.port);
    }
    forall c, d ensures Apart(s'.records, c, d) {
      assert Apart(s.records, c, d);
    }
    if Covered(s') {
      forall c | Survives(s.records, scan, c) ensures check(Get(s.records, c).value.port) {
        assert Get(s'.records, c).Some?;
      }
    }
  }

  lemma SurvivorsAreRecords(t: Table<Record>, inUse: int -> bool, c: int)
    requires Survives(t, inUse, c)
    ensures Get(t, c).Some?
  {
  }

  lemma CheckedAt(check: int -> bool, port: int)
    requires InRange(port)
    ensures Checked(check)[port - 1 - REGISTER_PORT] == check(port)
  {
    assert PortNumber(port - 1 - REGISTER_PORT) == port;
  }

  // ---------------------------------------------------------------- whole histories

  // Every clean pass of the history agreed with itself.
  ghost predicate PassesAgree(inUse: int -> bool, reqs: seq<Request>) {
    forall k :: 0 <= k < |reqs| && reqs[k].Tidy? ==> PassAgrees(Run(inUse, reqs[..k]), reqs[k].scan, reqs[k].check)
  }

  ghost predicate AlwaysSafe(inUse: int -> bool, reqs: seq<Request>) {
    forall k :: 0 <= k <= |reqs| ==> Safe(Run(inUse, reqs[..k]))
  }

  lemma StepKeepsSafeIff(s: Register, q: Request)
    requires Safe(s)
    ensures Safe(Step(s, q)) <==> (q.Tidy? ==> PassAgrees(s, q.scan, q.check))
  {
    hide Safe, BookPort, Clean, GetPort, PassAgrees;
    match q
    case Book(name) => BookKeepsSafe(s, name);
    case Ask(_) =>
    case Web(name) => BookKeepsSafe(s, name);
    case Tidy(scan, check) => CleanKeepsSafeIff(s, scan, check);
  }

  lemma StartIsSafe(inUse: int -> bool)
    ensures Safe(Start(inUse))
  {
    assert forall c :: Get(Empty<Record>(RECORD_BUCKETS), c) == None;
  }

  lemma OneMoreRequest(inUse: int -> bool, reqs: seq<Request>)
    requires reqs != []
    ensures var front, q := reqs[..|reqs| - 1], reqs[|reqs| - 1];
      && (AlwaysSafe(inUse, reqs) <==> (AlwaysSafe(inUse, front) && Safe(Run(inUse, reqs))))
      && (AlwaysSafe(inUse, front) ==> Safe(Run(inUse, front)))
      && (PassesAgree(inUse, reqs) <==>
          (PassesAgree(inUse, front) && (q.Tidy? ==> PassAgrees(Run(inUse, front), q.scan, q.check))))
  {
    hide Safe, Run, PassAgrees;
    var front := reqs[..|reqs| - 1];
    assert reqs[..|reqs|] == reqs && front[..|front|] == front;
    assert forall k :: 0 <= k <= |front| ==> front[..k] == reqs[..k];
  }

  // Over any history, all records always have different ports, in range and held back,
  // exactly when no clean pass got two different answers for the port of a record it kept.
  lemma {:induction false} AlwaysSafeIffPassesAgree(inUse: int -> bool, reqs: seq<Request>)
    ensures AlwaysSafe(inUse, reqs) <==> PassesAgree(inUse, reqs)
  {
    hide Safe, PassAgrees;
    if reqs == [] {
      StartIsSafe(inUse);
    } else {
      hide AlwaysSafe, PassesAgree, Step;
      var front := reqs[..|reqs| - 1];
      AlwaysSafeIffPassesAgree(inUse, front);
      OneMoreRequest(inUse, reqs);
      if AlwaysSafe(inUse, front) {
        StepKeepsSafeIff(Run(inUse, front), reqs[|reqs| - 1]);
      }
    }
  }

  // In particular no two records ever share a port, and none is on a port given up, if no
  // bind answer changes in the course of a pass.
  lemma StableHistoriesAreSafe(inUse: int -> bool, reqs: seq<Request>)
    requires forall k :: 0 <= k < |reqs| && reqs[k].Tidy? ==> reqs[k].scan == reqs[k].check
    ensures AlwaysSafe(inUse, reqs)
  {
    hide AlwaysSafe, Run, Get, HeadOf;
    forall k | 0 <= k < |reqs| && reqs[k].Tidy? ensures PassAgrees(Run(inUse, reqs[..k]), reqs[k].scan, reqs[k].check) {
    }
    AlwaysSafeIffPassesAgree(inUse, reqs);
  }

  // When they do change, two names can end up with one port.
  lemma DisagreeingPassSharesAPort(a: Name, b: Name)
    requires HashCode(a) != HashCode(b)
    ensures var none, all := (port: int) => false, (port: int) => true;
      var s := Run(none, [Book(a), Tidy(all, none), Book(b)]);
      GetPort(s, a) == GetPort(s, b) == PortNumber(0)
  {
    hide HashCode, Position, IndexIn, Formed, Stored, Cleaned, FirstFree, Run;
    var none, all := (port: int) => false, (port: int) => true;
    var s0 := Start(none);
    StartIsSafe(none);
    FirstPortIsFree(none);
    var s1 := BookPort(s0, a).0;
    GetAfterStored(s0.records, a, PortNumber(0), HashCode(a));
    var s2 := Clean(s1, all, none);
    EveryRecordSurvives(s1.records, all, HashCode(a));
    CleanKeepsFormed(s1.records, all);
    GetAfterStored(s2.records, b, PortNumber(0), HashCode(a));
    GetAfterStored(s2.records, b, PortNumber(0), HashCode(b));
    ThreeRequests(none, Book(a), Tidy(all, none), Book(b));
  }

  lemma FirstPortIsFree(none: int -> bool)
    requires forall port :: !none(port)
    ensures FirstFree(Checked(none), 0) == 0
  {
  }

  lemma EveryRecordSurvives(t: Table<Record>, all: int -> bool, c: int)
    requires Formed(t) && forall port :: all(port)
    ensures Get(Cleaned(t, all), c) == Get(t, c)
  {
    GetAfterClean(t, all, c);
  }

  lemma ThreeRequests(inUse: int -> bool, p: Request, q: Request, r: Request)
    ensures Run(inUse, [p, q, r]) == Step(Step(Step(Start(inUse), p), q), r)
  {
    hide Step, Start;
    assert [p, q, r][..2] == [p, q] && [p, q][..1] == [p] && [p][..0] == [];
    assert Run(inUse, [p]) == Step(Start(inUse), p);
  }
}
