/** What the port register means to one name: the code it is stored under, and how long it
    keeps its port. */
module PortNames {
  import opened HashTables
  import opened PortRegister
  import opened Options

  // ---------------------------------------------------------------- codes of names

  const WORD := 0x1_0000_0000

  lemma WrapsToOne(x: int, k: int)
    ensures Wrap(x + WORD * k) == Wrap(x)
    ensures -0x8000_0000 <= Wrap(x) < 0x8000_0000
  {
    Multiples(x + 0x8000_0000, k);
    assert x + WORD * k + 0x8000_0000 == x + 0x8000_0000 + WORD * k;
  }

  lemma Multiples(x: int, k: int)
    ensures (x + WORD * k) % WORD == x % WORD
  {
  }

  // How far wrapping moves a number.
  function Carried(x: int): int {
    (x + 0x8000_0000) / WORD
  }

  lemma WrapIsShift(x: int)
    ensures Wrap(x) == x - WORD * Carried(x)
  {
  }

  // The code as it would be without wrapping.
  function FullCode(name: Name): int {
    if name == [] then 1
    else FullCode(name[..|name| - 1]) * FullCode(name[..|name| - 1]) + name[|name| - 1]
  }

  lemma SquareShifts(x: int, k: int)
    ensures (x - WORD * k) * (x - WORD * k) == x * x + WORD * (k * k * WORD - 2 * x * k)
  {
    calc {
      (x - WORD * k) * (x - WORD * k);
      x * x - x * (WORD * k) - (WORD * k) * x + (WORD * k) * (WORD * k);
      x * x + WORD * (k * k * WORD - 2 * x * k);
    }
  }

  // Wrapping in every step comes to the same as wrapping once at the end.
  lemma {:induction false} CodeIsWrappedOnce(name: Name)
    ensures HashCode(name) == Wrap(FullCode(name))
  {
    if name != [] {
      hide Wrap;
      var front, last := name[..|name| - 1], name[|name| - 1];
      var code, full := HashCode(front), FullCode(front);
      CodeIsWrappedOnce(front);
      WrapIsShift(full);
      SquareShifts(full, Carried(full));
      var k := Carried(full) * Carried(full) * WORD - 2 * full * Carried(full);
      assert code * code == full * full + WORD * k;
      WrapIsShift(code * code);
      WrapsToOne(full * full + last, k - Carried(code * code));
      assert Wrap(code * code) + last == full * full + last + WORD * (k - Carried(code * code));
    }
  }

  lemma SmallStepsTell(x: int, a: int, b: int)
    requires 0 < a - b < WORD
    ensures Wrap(x + a) != Wrap(x + b)
  {
    hide Wrap, Carried;
    WrapIsShift(x + a);
    WrapIsShift(x + b);
    assert Wrap(x + a) - Wrap(x + b) == a - b - WORD * (Carried(x + a) - Carried(x + b));
  }

  // Names that differ in their last byte only have different codes.
  lemma LastByteTells(front: Name, a: int, b: int)
    requires -128 <= a < 256 && -128 <= b < 256 && a != b
    ensures HashCode(front + [a]) != HashCode(front + [b])
  {
    hide Wrap;
    assert (front + [a])[..|front|] == front && (front + [b])[..|front|] == front;
    var x := Wrap(HashCode(front) * HashCode(front));
    if a > b {
      SmallStepsTell(x, a, b);
    } else {
      SmallStepsTell(x, b, a);
    }
  }

  // ---------------------------------------------------------------- keeping a port

  // Asking for a web port of a name that has one gives that port and changes nothing.
  // Otherwise one is booked, and asking again gives the same.
  lemma WebPortIsKept(s: Register, name: Name)
    requires Safe(s)
    ensures var (s', port) := WebPort(s, name);
      && (GetPort(s, name) != -1 ==> s' == s && port == GetPort(s, name))
      && (port != -1 ==> GetPort(s', name) == port && WebPort(s', name) == (s', port))
      && forall other: Name :: HashCode(other) != HashCode(name) ==> GetPort(s', other) == GetPort(s, other)
  {
    hide HashCode, Stored, Formed, Get;
    BookedPortIsFresh(s, name);
    forall other: Name | HashCode(other) != HashCode(name)
      ensures GetPort(WebPort(s, name).0, other) == GetPort(s, other)
    {
      OthersKeepTheirPorts(s, name, HashCode(other));
    }
  }

  lemma OthersKeepTheirPorts(s: Register, name: Name, c: int)
    requires Formed(s.records) && c != HashCode(name)
    ensures Get(BookPort(s, name).0.records, c) == Get(s.records, c)
  {
    hide HashCode, Stored, Formed, Get;
    var i := FirstFree(s.reserve, 0);
    if i < RESERVE_SIZE {
      GetAfterStored(s.records, name, PortNumber(i), c);
    }
  }

  // A request that may give a record of this code another port, or drop it.
  ghost predicate Disturbs(s: Register, q: Request, c: int) {
    match q
    case Book(name) => HashCode(name) == c
    case Ask(_) => false
    case Web(_) => false
    case Tidy(scan, _) => !Survives(s.records, scan, c)
  }

  ghost predicate Undisturbed(inUse: int -> bool, reqs: seq<Request>, more: seq<Request>, c: int) {
    forall k :: 0 <= k < |more| ==> !Disturbs(Run(inUse, reqs + more[..k]), more[k], c)
  }

  lemma StepKeepsRecord(s: Register, q: Request, c: int)
    requires Formed(s.records) && Get(s.records, c).Some? && !Disturbs(s, q, c)
    requires AllInRange(s.records)
    ensures Get(Step(s, q).records, c) == Get(s.records, c)
  {
    hide HashCode, Get, Survives, Formed, BookPort, Cleaned;
    match q
    case Book(name) => OthersKeepTheirPorts(s, name, c);
    case Ask(_) =>
    case Web(name) =>
      if HashCode(name) != c {
        OthersKeepTheirPorts(s, name, c);
      }
    case Tidy(scan, check) => GetAfterClean(s.records, scan, c);
  }

  ghost predicate WellKept(s: Register) {
    Formed(s.records) && AllInRange(s.records)
  }

  lemma StepKeepsWell(s: Register, q: Request)
    requires WellKept(s)
    ensures WellKept(Step(s, q))
  {
    hide HashCode, Get, Formed, Stored, Cleaned, FirstFree;
    match q
    case Book(name) => BookKeepsWell(s, name);
    case Ask(_) =>
    case Web(name) => BookKeepsWell(s, name);
    case Tidy(scan, check) =>
      CleanKeepsFormed(s.records, scan);
      forall c ensures Get(Cleaned(s.records, scan), c) ==
                       if Survives(s.records, scan, c) then Get(s.records, c) else None {
        GetAfterClean(s.records, scan, c);
      }
  }

  lemma BookKeepsWell(s: Register, name: Name)
    requires WellKept(s)
    ensures WellKept(BookPort(s, name).0)
  {
    hide HashCode, Get, Formed, Stored;
    var i := FirstFree(s.reserve, 0);
    if i < RESERVE_SIZE {
      var t' := Stored(s.records, name, PortNumber(i));
      GetAfterStored(s.records, name, PortNumber(i), HashCode(name));
      forall c | Get(t', c).Some? ensures InRange(Get(t', c).value.port) {
        GetAfterStored(s.records, name, PortNumber(i), c);
      }
    }
  }

  lemma {:induction false} RunIsWellKept(inUse: int -> bool, reqs: seq<Request>)
    ensures WellKept(Run(inUse, reqs))
  {
    hide WellKept, Step;
    if reqs == [] {
      StartIsWellKept(inUse);
    } else {
      RunIsWellKept(inUse, reqs[..|reqs| - 1]);
      StepKeepsWell(Run(inUse, reqs[..|reqs| - 1]), reqs[|reqs| - 1]);
    }
  }

  lemma StartIsWellKept(inUse: int -> bool)
    ensures WellKept(Start(inUse))
  {
    assert forall c :: Get(Empty<Record>(RECORD_BUCKETS), c) == None;
  }

  lemma RunAfter(inUse: int -> bool, reqs: seq<Request>, q: Request)
    ensures Run(inUse, reqs + [q]) == Step(Run(inUse, reqs), q)
  {
    assert (reqs + [q])[..|reqs|] == reqs;
  }

  // Over every history a name keeps its port, and web requests go on giving it, until it
  // is booked again (or a name of the same code is) or a clean pass does not spare it.
  lemma {:induction false} PortIsKept(inUse: int -> bool, reqs: seq<Request>, more: seq<Request>, name: Name)
    requires GetPort(Run(inUse, reqs), name) != -1 && Undisturbed(inUse, reqs, more, HashCode(name))
    ensures Get(Run(inUse, reqs + more).records, HashCode(name)) == Get(Run(inUse, reqs).records, HashCode(name))
    ensures GetPort(Run(inUse, reqs + more), name) == GetPort(Run(inUse, reqs), name)
    ensures WebPort(Run(inUse, reqs + more), name) == (Run(inUse, reqs + more), GetPort(Run(inUse, reqs), name))
  {
    hide Run, HashCode, Get, Step, Disturbs, Formed;
    if more == [] {
      assert reqs + more == reqs;
    } else {
      var front, last := more[..|more| - 1], more[|more| - 1];
      assert forall k :: 0 <= k <= |front| ==> front[..k] == more[..k];
      PortIsKept(inUse, reqs, front, name);
      RunIsWellKept(inUse, reqs + front);
      assert reqs + more == reqs + front + [last];
      RunAfter(inUse, reqs + front, last);
      assert front == more[..|more| - 1];
      StepKeepsRecord(Run(inUse, reqs + front), last, HashCode(name));
    }
  }

  // What the register tells the one who sends a request.
  function Told(s: Register, q: Request): int {
    match q
    case Book(name) => BookPort(s, name).1
    case Ask(name) => GetPort(s, name)
    case Web(name) => WebPort(s, name).1
    case Tidy(_, _) => -1
  }

  lemma ToldIsStored(s: Register, q: Request)
    requires WellKept(s) && !q.Tidy? && Told(s, q) != -1
    ensures GetPort(Step(s, q), q.name) == Told(s, q)
  {
    hide HashCode, Get, Formed, Stored;
    if q.Book? || (q.Web? && GetPort(s, q.name) == -1) {
      GetAfterStored(s.records, q.name, PortNumber(FirstFree(s.reserve, 0)), HashCode(q.name));
    }
  }

  // A port that has been told to somebody, by a booking or a web request, is what asking
  // for that name gives afterwards, as long as nothing disturbs it.
  lemma ToldPortIsKept(inUse: int -> bool, reqs: seq<Request>, q: Request, more: seq<Request>)
    requires !q.Tidy? && Told(Run(inUse, reqs), q) != -1
    requires Undisturbed(inUse, reqs + [q], more, HashCode(q.name))
    ensures GetPort(Run(inUse, reqs + [q] + more), q.name) == Told(Run(inUse, reqs), q)
    ensures Told(Run(inUse, reqs + [q] + more), Ask(q.name)) == Told(Run(inUse, reqs + [q] + more), Web(q.name))
            == Told(Run(inUse, reqs), q)
  {
    hide Run, HashCode, Get, Step, WellKept;
    RunIsWellKept(inUse, reqs);
    RunAfter(inUse, reqs, q);
    ToldIsStored(Run(inUse, reqs), q);
    PortIsKept(inUse, reqs + [q], more, q.name);
  }
}
