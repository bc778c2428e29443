/** The pipes between boss and miners lose nothing and keep the order, and every dump that
    is asked for gets written. */
module TreasureMail {
  import opened Bytes
  import opened Md5Context
  import opened MinerSearch
  import opened TreasureHunt
  import opened TreasureProofs
  import opened TreasureNews

  // ---------------------------------------------------------------- jobs

  // What an action of the boss has written for miner i.
  ghost function SentBy(f: Hasher, s: Hunt, a: Action, i: nat): seq<Job>
    requires Formed(s) && i < |s.miners|
  {
    if !Enabled(s, a) then []
    else
      match a
      case LoadStep =>
        var range := Ranges(|s.miners|, |s.miners|)[i];
        if s.boss.minePtr < |s.boss.treasure| then []
        else [Start(f.absorb(FRESH, s.boss.treasure), s.boss.loadLevel, range.start, range.end)]
      case AskStatus => [Status]
      case Collect(j) =>
        var r := s.reports[j][0];
        if r.level == s.boss.nTreasure + 1 then [NewBest(r.ctx, r.level, j, r.hash)] else []
      case _ => []
  }

  ghost function Sent(f: Hasher, treasure: seq<Byte>, miners: nat, acts: seq<Action>, i: nat): seq<Job>
    requires i < miners
  {
    if acts == [] then []
    else
      var front := acts[..|acts| - 1];
      Sent(f, treasure, miners, front, i) + SentBy(f, Run(f, treasure, miners, front), acts[|acts| - 1], i)
  }

  ghost function JobsRead(f: Hasher, treasure: seq<Byte>, miners: nat, acts: seq<Action>, i: nat): seq<Job>
    requires i < miners
  {
    if acts == [] then []
    else
      var front, last := acts[..|acts| - 1], acts[|acts| - 1];
      var s := Run(f, treasure, miners, front);
      JobsRead(f, treasure, miners, front, i)
      + if last == Receive(i) && Enabled(s, last) then [s.jobs[i][0]] else []
  }

  lemma BossIsAtTheEnd(f: Hasher, boss: Boss, h: Record)
    requires BossSound(f, boss, h) && !boss.isDone && boss.minePtr >= |boss.treasure|
    ensures boss.minePtr == |boss.treasure| && boss.ctx == f.absorb(FRESH, boss.treasure)
    ensures boss.nTreasure == 0
  {
    assert boss.treasure[..boss.minePtr] == boss.treasure;
  }

  lemma LoadStepSends(f: Hasher, s: Hunt, h: Record, i: nat)
    requires Sound(f, s, h) && i < |s.miners|
    ensures Step(f, s, LoadStep).jobs[i] == s.jobs[i] + SentBy(f, s, LoadStep, i)
  {
    hide LeadingZeros, Ranges, BossSound, MinersSound;
    if !s.boss.isDone {
      if s.boss.minePtr == |s.boss.treasure| {
        BossIsAtTheEnd(f, s.boss, h);
      } else {
        StillLoading(f, s.boss);
      }
    }
  }

  lemma StillLoading(f: Hasher, boss: Boss)
    requires !boss.isDone && boss.minePtr < |boss.treasure|
    ensures !Loaded(f, boss).isDone
  {
    hide LeadingZeros;
  }

  lemma StepDelivers(f: Hasher, s: Hunt, h: Record, finders: seq<nat>, a: Action, i: nat)
    requires Sound(f, s, h) && ToldSound(f, s, h, finders) && i < |s.miners|
    ensures var read := if a == Receive(i) && Enabled(s, a) then [s.jobs[i][0]] else [];
      s.jobs[i] + SentBy(f, s, a, i) == read + Step(f, s, a).jobs[i]
  {
    hide LeadingZeros, Ranges, Sound, AfterTry, Finds, Told, Received, DumpMore, Loaded, NewsSound;
    match a
    case LoadStep => LoadStepSends(f, s, h, i);
    case _ =>
  }

  lemma Splice<T>(sent: seq<T>, read: seq<T>, pipe: seq<T>, more: seq<T>, now: seq<T>, pipe': seq<T>)
    requires sent == read + pipe && pipe + more == now + pipe'
    ensures sent + more == read + now + pipe'
  {
    assert read + pipe + more == read + (pipe + more);
    assert read + (now + pipe') == read + now + pipe';
  }

  // In every run what a miner has read and what is still in its pipe are together what the
  // boss has sent it, in that order.
  lemma {:induction false} JobsArriveInOrder(f: Hasher, treasure: seq<Byte>, miners: nat, acts: seq<Action>, i: nat)
    requires Streams(f) && i < miners
    ensures Sent(f, treasure, miners, acts, i) ==
            JobsRead(f, treasure, miners, acts, i) + Run(f, treasure, miners, acts).jobs[i]
  {
    if acts != [] {
      hide Step, Sound, ToldSound, SentBy, Noted, Run, Streams;
      var front, last := acts[..|acts| - 1], acts[|acts| - 1];
      assert front + [last] == acts;
      RunAfter(f, treasure, miners, front, last);
      JobsArriveInOrder(f, treasure, miners, front, i);
      RunIsSound(f, treasure, miners, front);
      RunKeepsTold(f, treasure, miners, front);
      var s := Run(f, treasure, miners, front);
      StepDelivers(f, s, Notes(f, treasure, miners, front), Finders(f, treasure, miners, front), last, i);
      Splice(Sent(f, treasure, miners, front, i), JobsRead(f, treasure, miners, front, i), s.jobs[i],
             SentBy(f, s, last, i), if last == Receive(i) && Enabled(s, last) then [s.jobs[i][0]] else [],
             Step(f, s, last).jobs[i]);
    } else {
      EmptyAtFirst(f, treasure, miners, i);
    }
  }

  lemma RunAfter(f: Hasher, treasure: seq<Byte>, miners: nat, acts: seq<Action>, a: Action)
    requires miners > 0
    ensures Run(f, treasure, miners, acts + [a]) == Step(f, Run(f, treasure, miners, acts), a)
  {
    assert (acts + [a])[..|acts|] == acts;
  }

  lemma EmptyAtFirst(f: Hasher, treasure: seq<Byte>, miners: nat, i: nat)
    requires i < miners
    ensures Run(f, treasure, miners, []).jobs[i] == [] && Run(f, treasure, miners, []).reports[i] == []
  {
  }

  // ---------------------------------------------------------------- reports

  // What an action has miner i write: a find with all it was made of.
  ghost function WrittenBy(f: Hasher, s: Hunt, a: Action, i: nat): seq<Report>
    requires Formed(s) && i < |s.miners|
  {
    var m := s.miners[i];
    var found := f.absorb(m.ctx, Candidate(m.search));
    if a == Try(i) && m.work && LeadingZeros(f.hash(found)) == m.nTreasure + 1 then
      [Report(found, m.nTreasure + 1, i, Candidate(m.search), f.hash(found))]
    else []
  }

  ghost function Written(f: Hasher, treasure: seq<Byte>, miners: nat, acts: seq<Action>, i: nat): seq<Report>
    requires i < miners
  {
    if acts == [] then []
    else
      var front := acts[..|acts| - 1];
      Written(f, treasure, miners, front, i) + WrittenBy(f, Run(f, treasure, miners, front), acts[|acts| - 1], i)
  }

  ghost function ReportsRead(f: Hasher, treasure: seq<Byte>, miners: nat, acts: seq<Action>, i: nat): seq<Report>
    requires i < miners
  {
    if acts == [] then []
    else
      var front, last := acts[..|acts| - 1], acts[|acts| - 1];
      var s := Run(f, treasure, miners, front);
      ReportsRead(f, treasure, miners, front, i)
      + if last == Collect(i) && Enabled(s, last) then [s.reports[i][0]] else []
  }

  lemma StepReports(f: Hasher, s: Hunt, a: Action, i: nat)
    requires Formed(s) && i < |s.miners|
    ensures var read := if a == Collect(i) && Enabled(s, a) then [s.reports[i][0]] else [];
      s.reports[i] + WrittenBy(f, s, a, i) == read + Step(f, s, a).reports[i]
  {
    hide LeadingZeros, Ranges, Received, DumpMore, Loaded, Candidate;
  }

  // And what the boss has read from a miner and what is still in that pipe are together
  // the finds the miner has made, in order.
  lemma {:induction false} ReportsArriveInOrder(f: Hasher, treasure: seq<Byte>, miners: nat, acts: seq<Action>, i: nat)
    requires i < miners
    ensures Written(f, treasure, miners, acts, i) ==
            ReportsRead(f, treasure, miners, acts, i) + Run(f, treasure, miners, acts).reports[i]
  {
    if acts != [] {
      hide Step, WrittenBy, Run;
      var front, last := acts[..|acts| - 1], acts[|acts| - 1];
      assert front + [last] == acts;
      RunAfter(f, treasure, miners, front, last);
      ReportsArriveInOrder(f, treasure, miners, front, i);
      var s := Run(f, treasure, miners, front);
      StepReports(f, s, last, i);
      Splice(Written(f, treasure, miners, front, i), ReportsRead(f, treasure, miners, front, i), s.reports[i],
             WrittenBy(f, s, last, i), if last == Collect(i) && Enabled(s, last) then [s.reports[i][0]] else [],
             Step(f, s, last).reports[i]);
    } else {
      EmptyAtFirst(f, treasure, miners, i);
    }
  }

  // ---------------------------------------------------------------- dumps

  // How many dumps have been asked for.
  ghost function Asked(f: Hasher, treasure: seq<Byte>, miners: nat, acts: seq<Action>): nat
    requires miners > 0
  {
    if acts == [] then 0
    else
      var front, last := acts[..|acts| - 1], acts[|acts| - 1];
      Asked(f, treasure, miners, front)
      + if last == StartDump && Enabled(Run(f, treasure, miners, front), last) then 1 else 0
  }

  // How many pieces of dump d have been written.
  ghost function Pieces(f: Hasher, treasure: seq<Byte>, miners: nat, acts: seq<Action>, d: nat): nat
    requires miners > 0
  {
    if acts == [] then 0
    else
      var front, last := acts[..|acts| - 1], acts[|acts| - 1];
      Pieces(f, treasure, miners, front, d)
      + if last == DumpStep(d) && Enabled(Run(f, treasure, miners, front), last) then 1 else 0
  }

  // An open dump has its pieces of 3000000 bytes each, and a closed one what the boss had
  // appended when it was closed besides.
  ghost predicate DumpFits(boss: Boss, d: Dump, k: nat) {
    var size := |boss.treasure|;
    if d.open then
      && d.ptr == (if 3000000 * k < size then 3000000 * k else size)
      && (k > 0 ==> 3000000 * (k - 1) < size)
      && d.written == boss.treasure[..d.ptr]
    else
      && k > 0 && (k > 1 ==> 3000000 * (k - 2) < size)
      && boss.treasure <= d.written <= boss.treasure + boss.append
  }

  lemma PieceFits(boss: Boss, d: Dump, k: nat)
    requires d.ptr <= |boss.treasure| && d.open && DumpFits(boss, d, k)
    ensures DumpFits(boss, DumpMore(boss, d), k + 1)
  {
    var to := DumpMore(boss, d).ptr;
    if |boss.treasure| > d.ptr {
      assert boss.treasure[..to] == boss.treasure[..d.ptr] + boss.treasure[d.ptr..to];
    } else {
      assert boss.treasure[..d.ptr] == boss.treasure;
    }
  }

  lemma AppendedMore(boss: Boss, boss': Boss, d: Dump, k: nat)
    requires DumpFits(boss, d, k) && boss'.treasure == boss.treasure && boss.append <= boss'.append
    ensures DumpFits(boss', d, k)
  {
    assert boss'.treasure + boss'.append == boss.treasure + boss.append + boss'.append[|boss.append|..];
  }

  lemma StepDumps(f: Hasher, s: Hunt, a: Action, d: nat, k: nat)
    requires Formed(s) && (if d < |s.dumps| then DumpFits(s.boss, s.dumps[d], k) else k == 0)
    ensures var s' := Step(f, s, a);
      && |s'.dumps| == |s.dumps| + (if a == StartDump && Enabled(s, a) then 1 else 0)
      && var k' := if a == DumpStep(d) && Enabled(s, a) then k + 1 else k;
         if d < |s'.dumps| then DumpFits(s'.boss, s'.dumps[d], k') else k' == 0
  {
    hide LeadingZeros, Ranges, AfterTry, Finds, Told, Received, DumpMore, DumpFits, Loaded;
    match a
    case LoadStep =>
      LoadingAppendsNothing(f, s.boss);
      if d < |s.dumps| {
        AppendedMore(s.boss, Step(f, s, a).boss, s.dumps[d], k);
      }
    case Collect(i) =>
      if d < |s.dumps| {
        AppendedMore(s.boss, Step(f, s, a).boss, s.dumps[d], k);
      }
    case StartDump => NewDumpFits(s.boss);
    case DumpStep(e) =>
      if e == d && Enabled(s, a) {
        PieceFits(s.boss, s.dumps[d], k);
      }
    case _ =>
  }

  lemma LoadingAppendsNothing(f: Hasher, boss: Boss)
    requires boss.minePtr <= |boss.treasure|
    ensures Loaded(f, boss).append == boss.append && Loaded(f, boss).treasure == boss.treasure
  {
    hide LeadingZeros;
  }

  lemma NewDumpFits(boss: Boss)
    ensures DumpFits(boss, Dump([], 0, true), 0)
  {
  }

  lemma {:induction false} RunDumps(f: Hasher, treasure: seq<Byte>, miners: nat, acts: seq<Action>, d: nat)
    requires miners > 0
    ensures var s, k := Run(f, treasure, miners, acts), Pieces(f, treasure, miners, acts, d);
      && |s.dumps| == Asked(f, treasure, miners, acts)
      && if d < |s.dumps| then DumpFits(s.boss, s.dumps[d], k) else k == 0
  {
    if acts != [] {
      hide Step, DumpFits;
      var front := acts[..|acts| - 1];
      RunDumps(f, treasure, miners, front, d);
      StepDumps(f, Run(f, treasure, miners, front), acts[|acts| - 1], d, Pieces(f, treasure, miners, front, d));
    }
  }

  // In every run there is a dump for each time one was asked for. It is closed after one
  // piece for every 3000000 bytes of the treasure begun and one more, never takes more,
  // and then holds the treasure and what had been appended by some moment until now.
  lemma DumpsGetWritten(f: Hasher, treasure: seq<Byte>, miners: nat, acts: seq<Action>, d: nat)
    requires miners > 0 && d < Asked(f, treasure, miners, acts)
    ensures var s, k := Run(f, treasure, miners, acts), Pieces(f, treasure, miners, acts, d);
      && |s.dumps| == Asked(f, treasure, miners, acts)
      && (k > 1 ==> 3000000 * (k - 2) < |treasure|)
      && (k > 0 && 3000000 * (k - 1) >= |treasure| ==> !s.dumps[d].open)
      && (!s.dumps[d].open ==> treasure <= s.dumps[d].written <= treasure + s.boss.append)
  {
    hide Run, Pieces, Asked;
    RunDumps(f, treasure, miners, acts, d);
  }
}
