/** What every run of the treasure hunt keeps: all contexts in flight belong to some level
    the boss has had, and every miner is occupied with the latest one. */
module TreasureProofs {
  import opened Bytes
  import opened Md5Spec
  import opened Md5Context
  import opened MinerSearch
  import opened TreasureHunt

  // ---------------------------------------------------------------- levels

  // The level the treasure itself gave, and the bytes of each accepted find since.
  datatype Record = Record(base: nat, finds: seq<seq<Byte>>)

  ghost function Noted(f: Hasher, s: Hunt, h: Record, a: Action): Record
    requires Formed(s)
  {
    match a
    case LoadStep => if Enabled(s, a) && Loaded(f, s.boss).isDone then Record(s.boss.loadLevel, []) else h
    case Collect(i) =>
      if Enabled(s, a) && IsNext(s.boss, s.reports[i][0]) then h.(finds := h.finds + [s.reports[i][0].append]) else h
    case _ => h
  }

  ghost function Notes(f: Hasher, treasure: seq<Byte>, miners: nat, acts: seq<Action>): Record
    requires miners > 0
  {
    if acts == [] then Record(0, [])
    else
      var front := acts[..|acts| - 1];
      Noted(f, Run(f, treasure, miners, front), Notes(f, treasure, miners, front), acts[|acts| - 1])
  }

  // The bytes hashed into the context of a level.
  ghost function Best(treasure: seq<Byte>, h: Record, level: nat): seq<Byte>
    requires h.base <= level <= h.base + |h.finds|
  {
    treasure + Concat(h.finds[..level - h.base])
  }

  ghost predicate IsLevel(f: Hasher, treasure: seq<Byte>, h: Record, ctx: Context, level: nat) {
    h.base <= level <= h.base + |h.finds| && ctx == f.absorb(FRESH, Best(treasure, h, level))
  }

  // A report extends some level the boss has had by exactly one zero.
  ghost predicate ReportSound(f: Hasher, treasure: seq<Byte>, h: Record, r: Report) {
    && h.base < r.level <= h.base + |h.finds| + 1
    && r.ctx == f.absorb(FRESH, Best(treasure, h, r.level - 1) + r.append)
    && r.hash == f.hash(r.ctx) && LeadingZeros(r.hash) == r.level
  }

  ghost predicate JobSound(f: Hasher, treasure: seq<Byte>, h: Record, job: Job) {
    job.Status? || IsLevel(f, treasure, h, job.ctx, job.level)
  }

  ghost predicate BossSound(f: Hasher, boss: Boss, h: Record) {
    if !boss.isDone then
      && h == Record(0, []) && boss.append == [] && boss.nTreasure == 0
      && boss.minePtr <= |boss.treasure| && boss.ctx == f.absorb(FRESH, boss.treasure[..boss.minePtr])
    else
      && boss.nTreasure == h.base + |h.finds|
      && boss.append == Concat(h.finds)
      && boss.ctx == f.absorb(FRESH, boss.treasure + boss.append)
      && boss.hash == f.hash(boss.ctx)
      && (h.finds != [] ==> LeadingZeros(boss.hash) == boss.nTreasure)
  }

  // ---------------------------------------------------------------- nobody stranded

  // The level of the newest job a miner has not read yet, or else the one it last read.
  ghost function Assigned(jobs: seq<Job>, read: nat): nat {
    if jobs == [] then read
    else if jobs[|jobs| - 1].Status? then Assigned(jobs[..|jobs| - 1], read)
    else jobs[|jobs| - 1].level
  }

  ghost predicate HasJob(jobs: seq<Job>) {
    exists k :: 0 <= k < |jobs| && !jobs[k].Status?
  }

  ghost predicate HasReport(reports: seq<Report>, level: nat) {
    exists k :: 0 <= k < |reports| && reports[k].level == level
  }

  // A miner has a job to read, or works, or has a find to report on the boss's level.
  ghost predicate Occupied(level: nat, m: Miner, jobs: seq<Job>, reports: seq<Report>) {
    && Assigned(jobs, m.nTreasure) == level
    && (HasJob(jobs) || m.work || HasReport(reports, level + 1))
  }

  ghost predicate MinerSound(f: Hasher, boss: Boss, h: Record, m: Miner, jobs: seq<Job>, reports: seq<Report>) {
    && (forall k :: 0 <= k < |jobs| ==> JobSound(f, boss.treasure, h, jobs[k]))
    && (forall k :: 0 <= k < |reports| ==> ReportSound(f, boss.treasure, h, reports[k]))
    && (m.work ==> IsLevel(f, boss.treasure, h, m.ctx, m.nTreasure))
    && if boss.isDone then Occupied(boss.nTreasure, m, jobs, reports) else jobs == [] && reports == [] && !m.work
  }

  ghost predicate DumpSound(boss: Boss, d: Dump)
    requires d.ptr <= |boss.treasure|
  {
    d.open ==> d.written == boss.treasure[..d.ptr]
  }

  ghost predicate MinersSound(f: Hasher, s: Hunt, h: Record)
    requires Formed(s)
  {
    forall i :: 0 <= i < |s.miners| ==> MinerSound(f, s.boss, h, s.miners[i], s.jobs[i], s.reports[i])
  }

  ghost predicate DumpsSound(s: Hunt)
    requires Formed(s)
  {
    forall d :: 0 <= d < |s.dumps| ==> DumpSound(s.boss, s.dumps[d])
  }

  ghost predicate Sound(f: Hasher, s: Hunt, h: Record) {
    Formed(s) && BossSound(f, s.boss, h) && MinersSound(f, s, h) && DumpsSound(s)
  }

  // ---------------------------------------------------------------- finds accumulate

  lemma {:induction false} ConcatExtends(finds: seq<seq<Byte>>, x: seq<Byte>)
    ensures Concat(finds + [x]) == Concat(finds) + x
  {
    if |finds| == 0 {
      assert (finds + [x])[1..] == [];
    } else {
      assert (finds + [x])[1..] == finds[1..] + [x];
      ConcatExtends(finds[1..], x);
    }
  }

  ghost function Grown(h: Record, x: seq<Byte>): Record {
    h.(finds := h.finds + [x])
  }

  lemma LevelsStay(f: Hasher, treasure: seq<Byte>, h: Record, x: seq<Byte>, level: nat)
    requires h.base <= level <= h.base + |h.finds|
    ensures Best(treasure, Grown(h, x), level) == Best(treasure, h, level)
  {
    assert (h.finds + [x])[..level - h.base] == h.finds[..level - h.base];
  }

  lemma TopLevel(f: Hasher, boss: Boss, h: Record)
    requires BossSound(f, boss, h) && boss.isDone
    ensures Best(boss.treasure, h, boss.nTreasure) == boss.treasure + boss.append
    ensures IsLevel(f, boss.treasure, h, boss.ctx, boss.nTreasure)
  {
    assert h.finds[..|h.finds|] == h.finds;
  }

  lemma JobStaysSound(f: Hasher, treasure: seq<Byte>, h: Record, x: seq<Byte>, job: Job)
    requires JobSound(f, treasure, h, job)
    ensures JobSound(f, treasure, Grown(h, x), job)
  {
    hide Best;
    if !job.Status? {
      LevelsStay(f, treasure, h, x, job.level);
    }
  }

  lemma ReportStaysSound(f: Hasher, treasure: seq<Byte>, h: Record, x: seq<Byte>, r: Report)
    requires ReportSound(f, treasure, h, r)
    ensures ReportSound(f, treasure, Grown(h, x), r)
  {
    hide Best, LeadingZeros;
    LevelsStay(f, treasure, h, x, r.level - 1);
  }

  // ---------------------------------------------------------------- what each miner has

  lemma {:induction false} AssignedAfterOne(jobs: seq<Job>, read: nat)
    requires jobs != []
    ensures Assigned(jobs, read) == Assigned(jobs[1..], if jobs[0].Status? then read else jobs[0].level)
  {
    var last := jobs[|jobs| - 1];
    if last.Status? && |jobs| > 1 {
      AssignedAfterOne(jobs[..|jobs| - 1], read);
      assert jobs[..|jobs| - 1][1..] == jobs[1..][..|jobs| - 2];
    }
  }

  lemma AssignedNext(jobs: seq<Job>, job: Job, read: nat)
    ensures Assigned(jobs + [job], read) == if job.Status? then Assigned(jobs, read) else job.level
  {
    assert (jobs + [job])[..|jobs|] == jobs;
  }

  lemma MoreJobs(jobs: seq<Job>, job: Job)
    ensures HasJob(jobs + [job]) <==> HasJob(jobs) || !job.Status?
  {
    if HasJob(jobs) {
      var k :| 0 <= k < |jobs| && !jobs[k].Status?;
      assert (jobs + [job])[k] == jobs[k];
    }
    assert (jobs + [job])[|jobs|] == job;
  }

  lemma MinerIsTold(f: Hasher, boss: Boss, h: Record, m: Miner, jobs: seq<Job>, reports: seq<Report>, job: Job)
    requires MinerSound(f, boss, h, m, jobs, reports) && boss.isDone
    requires JobSound(f, boss.treasure, h, job) && (job.Status? || job.level == boss.nTreasure)
    ensures MinerSound(f, boss, h, m, jobs + [job], reports)
  {
    hide JobSound, ReportSound, IsLevel;
    AssignedNext(jobs, job, m.nTreasure);
    MoreJobs(jobs, job);
  }

  lemma MinerReceives(f: Hasher, boss: Boss, h: Record, m: Miner, jobs: seq<Job>, reports: seq<Report>)
    requires MinerSound(f, boss, h, m, jobs, reports) && jobs != []
    ensures MinerSound(f, boss, h, Received(m, jobs[0]), jobs[1..], reports)
  {
    hide ReportSound, IsLevel;
    AssignedAfterOne(jobs, m.nTreasure);
    assert JobSound(f, boss.treasure, h, jobs[0]);
    if HasJob(jobs) && jobs[0].Status? {
      var k :| 0 <= k < |jobs| && !jobs[k].Status?;
      assert jobs[1..][k - 1] == jobs[k];
    }
  }

  lemma FindIsSound(f: Hasher, treasure: seq<Byte>, h: Record, m: Miner, name: nat)
    requires Streams(f) && IsLevel(f, treasure, h, m.ctx, m.nTreasure) && Finds(f, m)
    ensures ReportSound(f, treasure, h, Told(f, m, name))
  {
    hide LeadingZeros, Candidate, Best, Streams;
    AbsorbTwice(f, FRESH, Best(treasure, h, m.nTreasure), Candidate(m.search));
  }

  lemma MinerTries(f: Hasher, boss: Boss, h: Record, m: Miner, jobs: seq<Job>, reports: seq<Report>, name: nat)
    requires Streams(f) && MinerSound(f, boss, h, m, jobs, reports) && m.work
    ensures MinerSound(f, boss, h, AfterTry(f, m), jobs, if Finds(f, m) then reports + [Told(f, m, name)] else reports)
  {
    hide IsLevel, JobSound, ReportSound, Attempt, Tried, LeadingZeros, Assigned, Finds;
    if Finds(f, m) {
      FindIsSound(f, boss.treasure, h, m, name);
      TellingIsHavingTold(f, boss.nTreasure, m, jobs, reports, name);
    }
  }

  lemma TellingIsHavingTold(f: Hasher, level: nat, m: Miner, jobs: seq<Job>, reports: seq<Report>, name: nat)
    requires Occupied(level, m, jobs, reports) && m.work && Finds(f, m)
    ensures Occupied(level, AfterTry(f, m), jobs, reports + [Told(f, m, name)])
  {
    hide Attempt, Tried, LeadingZeros;
    if !HasJob(jobs) {
      NothingAssigned(jobs, m.nTreasure);
      assert (reports + [Told(f, m, name)])[|reports|].level == level + 1;
    }
  }

  lemma {:induction false} NothingAssigned(jobs: seq<Job>, read: nat)
    requires !HasJob(jobs)
    ensures Assigned(jobs, read) == read
  {
    if jobs != [] {
      var front := jobs[..|jobs| - 1];
      assert forall k :: 0 <= k < |front| ==> front[k] == jobs[k];
      NothingAssigned(front, read);
    }
  }

  // A report that is not the next level can go without anybody being stranded.
  lemma StaleReportIsRead(f: Hasher, boss: Boss, h: Record, m: Miner, jobs: seq<Job>, reports: seq<Report>)
    requires MinerSound(f, boss, h, m, jobs, reports) && reports != [] && boss.isDone && !IsNext(boss, reports[0])
    ensures MinerSound(f, boss, h, m, jobs, reports[1..])
  {
    hide JobSound, ReportSound, IsLevel, Assigned;
    if HasReport(reports, boss.nTreasure + 1) {
      var k :| 0 <= k < |reports| && reports[k].level == boss.nTreasure + 1;
      assert reports[1..][k - 1] == reports[k];
    }
  }

  lemma BossAccepts(f: Hasher, boss: Boss, h: Record, r: Report)
    requires BossSound(f, boss, h) && boss.isDone && ReportSound(f, boss.treasure, h, r) && IsNext(boss, r)
    ensures BossSound(f, Accepted(boss, r), Grown(h, r.append))
  {
    hide LeadingZeros;
    TopLevel(f, boss, h);
    ConcatExtends(h.finds, r.append);
    assert boss.treasure + boss.append + r.append == boss.treasure + (boss.append + r.append);
  }

  // Everybody is told of an accepted find, whatever they were doing.
  lemma MinerIsTakenAlong(f: Hasher, boss: Boss, h: Record, r: Report, m: Miner, jobs: seq<Job>, reports: seq<Report>)
    requires MinerSound(f, boss, h, m, jobs, reports) && boss.isDone
    requires BossSound(f, Accepted(boss, r), Grown(h, r.append))
    ensures MinerSound(f, Accepted(boss, r), Grown(h, r.append), m, jobs + [News(Accepted(boss, r))], reports)
  {
    hide Best, LeadingZeros;
    var boss', h', news := Accepted(boss, r), Grown(h, r.append), News(Accepted(boss, r));
    TopLevel(f, boss', h');
    forall k | 0 <= k < |jobs + [news]| ensures JobSound(f, boss'.treasure, h', (jobs + [news])[k]) {
      if k < |jobs| {
        JobStaysSound(f, boss.treasure, h, r.append, jobs[k]);
      }
    }
    forall k | 0 <= k < |reports| ensures ReportSound(f, boss'.treasure, h', reports[k]) {
      ReportStaysSound(f, boss.treasure, h, r.append, reports[k]);
    }
    if m.work {
      LevelsStay(f, boss.treasure, h, r.append, m.nTreasure);
    }
    AssignedNext(jobs, news, m.nTreasure);
    MoreJobs(jobs, news);
  }

  // ---------------------------------------------------------------- steps keep it

  lemma LoadingExtends(f: Hasher, boss: Boss, h: Record)
    requires Streams(f) && BossSound(f, boss, h) && !boss.isDone && boss.minePtr < |boss.treasure|
    ensures BossSound(f, Loaded(f, boss), h) && !Loaded(f, boss).isDone
    ensures boss.minePtr < Loaded(f, boss).minePtr
  {
    hide LeadingZeros, Streams, PacketEnd;
    var from, to := boss.minePtr, PacketEnd(boss.minePtr, |boss.treasure|);
    AbsorbTwice(f, FRESH, boss.treasure[..from], boss.treasure[from..to]);
    assert boss.treasure[..to] == boss.treasure[..from] + boss.treasure[from..to];
  }

  lemma LoadingEnds(f: Hasher, boss: Boss, h: Record)
    requires BossSound(f, boss, h) && !boss.isDone && boss.minePtr == |boss.treasure|
    ensures BossSound(f, Loaded(f, boss), Record(boss.loadLevel, []))
    ensures Loaded(f, boss).isDone
  {
    hide LeadingZeros;
    assert boss.treasure[..boss.minePtr] == boss.treasure;
    assert boss.treasure + [] == boss.treasure;
  }

  lemma MinerStarts(f: Hasher, boss: Boss, h: Record, m: Miner, start: int, end: int)
    requires BossSound(f, boss, h) && boss.isDone && !m.work
    ensures MinerSound(f, boss, h, m, [Start(boss.ctx, boss.nTreasure, start, end)], [])
  {
    hide Best, LeadingZeros;
    TopLevel(f, boss, h);
    var job := Start(boss.ctx, boss.nTreasure, start, end);
    assert [job][0] == job;
  }

  lemma LoadKeepsSound(f: Hasher, s: Hunt, h: Record)
    requires Streams(f) && Sound(f, s, h)
    ensures Sound(f, Step(f, s, LoadStep), Noted(f, s, h, LoadStep))
  {
    hide LeadingZeros, BossSound, Ranges;
    if !s.boss.isDone {
      if s.boss.minePtr < |s.boss.treasure| {
        LoadingExtends(f, s.boss, h);
      } else {
        LoadingEnds(f, s.boss, h);
        JobsGoOut(f, s, h);
      }
    }
  }

  lemma JobsGoOut(f: Hasher, s: Hunt, h: Record)
    requires Sound(f, s, h) && !s.boss.isDone && s.boss.minePtr == |s.boss.treasure|
    requires BossSound(f, Loaded(f, s.boss), Record(s.boss.loadLevel, [])) && Loaded(f, s.boss).isDone
    ensures MinersSound(f, Step(f, s, LoadStep), Record(s.boss.loadLevel, []))
  {
    hide LeadingZeros, BossSound, Ranges, Loaded;
    var s', h' := Step(f, s, LoadStep), Record(s.boss.loadLevel, []);
    var ranges := Ranges(|s.miners|, |s.miners|);
    forall i | 0 <= i < |s.miners| ensures MinerSound(f, s'.boss, h', s'.miners[i], s'.jobs[i], s'.reports[i]) {
      assert MinerSound(f, s.boss, h, s.miners[i], s.jobs[i], s.reports[i]);
      MinerStarts(f, s'.boss, h', s.miners[i], ranges[i].start, ranges[i].end);
      assert s'.jobs[i] == [Start(s'.boss.ctx, s'.boss.nTreasure, ranges[i].start, ranges[i].end)];
    }
  }

  lemma AskKeepsSound(f: Hasher, s: Hunt, h: Record)
    requires Sound(f, s, h)
    ensures Sound(f, Step(f, s, AskStatus), h)
  {
    hide BossSound, MinerSound;
    var s' := Step(f, s, AskStatus);
    if s.boss.isDone {
      forall i | 0 <= i < |s.miners| ensures MinerSound(f, s'.boss, h, s'.miners[i], s'.jobs[i], s'.reports[i]) {
        MinerIsTold(f, s.boss, h, s.miners[i], s.jobs[i], s.reports[i], Status);
      }
    }
  }

  lemma ReceiveKeepsSound(f: Hasher, s: Hunt, h: Record, i: nat)
    requires Sound(f, s, h)
    ensures Sound(f, Step(f, s, Receive(i)), h)
  {
    hide BossSound, MinerSound, Received;
    if Enabled(s, Receive(i)) {
      MinerReceives(f, s.boss, h, s.miners[i], s.jobs[i], s.reports[i]);
    }
  }

  lemma TryKeepsSound(f: Hasher, s: Hunt, h: Record, i: nat)
    requires Streams(f) && Sound(f, s, h)
    ensures Sound(f, Step(f, s, Try(i)), h)
  {
    hide BossSound, MinerSound, AfterTry, Finds, Told;
    if Enabled(s, Try(i)) {
      MinerTries(f, s.boss, h, s.miners[i], s.jobs[i], s.reports[i], i);
    }
  }

  lemma CollectKeepsSound(f: Hasher, s: Hunt, h: Record, i: nat)
    requires Sound(f, s, h)
    ensures Sound(f, Step(f, s, Collect(i)), Noted(f, s, h, Collect(i)))
  {
    hide BossSound, MinerSound, Accepted, News;
    if Enabled(s, Collect(i)) {
      OnlyTheDoneReport(f, s, h, i);
      if IsNext(s.boss, s.reports[i][0]) {
        AcceptKeepsSound(f, s, h, i);
      } else {
        StaleReportIsRead(f, s.boss, h, s.miners[i], s.jobs[i], s.reports[i]);
      }
    }
  }

  lemma OnlyTheDoneReport(f: Hasher, s: Hunt, h: Record, i: nat)
    requires Sound(f, s, h) && i < |s.miners| && s.reports[i] != []
    ensures s.boss.isDone && ReportSound(f, s.boss.treasure, h, s.reports[i][0])
  {
    hide BossSound, ReportSound, JobSound, IsLevel;
    assert MinerSound(f, s.boss, h, s.miners[i], s.jobs[i], s.reports[i]);
  }

  lemma FewerReports(f: Hasher, boss: Boss, h: Record, m: Miner, jobs: seq<Job>, reports: seq<Report>)
    requires MinerSound(f, boss, h, m, jobs, reports) && boss.isDone && reports != [] && HasJob(jobs)
    ensures MinerSound(f, boss, h, m, jobs, reports[1..])
  {
    hide JobSound, ReportSound, IsLevel, Assigned;
  }

  lemma AcceptKeepsSound(f: Hasher, s: Hunt, h: Record, i: nat)
    requires Sound(f, s, h) && i < |s.miners| && s.reports[i] != [] && s.boss.isDone
    requires ReportSound(f, s.boss.treasure, h, s.reports[i][0]) && IsNext(s.boss, s.reports[i][0])
    ensures Sound(f, Step(f, s, Collect(i)), Grown(h, s.reports[i][0].append))
  {
    hide BossSound, MinerSound, ReportSound, HasJob;
    var r, s' := s.reports[i][0], Step(f, s, Collect(i));
    var h' := Grown(h, r.append);
    BossAccepts(f, s.boss, h, r);
    forall j | 0 <= j < |s.miners| ensures MinerSound(f, s'.boss, h', s'.miners[j], s'.jobs[j], s'.reports[j]) {
      MinerIsTakenAlong(f, s.boss, h, r, s.miners[j], s.jobs[j], s.reports[j]);
      if j == i {
        MoreJobs(s.jobs[i], News(s'.boss));
        FewerReports(f, s'.boss, h', s.miners[i], s'.jobs[i], s.reports[i]);
      }
    }
  }

  lemma DumpKeepsSound(f: Hasher, s: Hunt, h: Record, d: nat)
    requires Sound(f, s, h)
    ensures Sound(f, Step(f, s, DumpStep(d)), h)
  {
    hide BossSound, MinerSound;
    if Enabled(s, DumpStep(d)) {
      var dump, treasure := s.dumps[d], s.boss.treasure;
      var to := DumpMore(s.boss, dump).ptr;
      assert treasure[..to] == treasure[..dump.ptr] + treasure[dump.ptr..to];
    }
  }

  lemma StepKeepsSound(f: Hasher, s: Hunt, h: Record, a: Action)
    requires Streams(f) && Sound(f, s, h)
    ensures Sound(f, Step(f, s, a), Noted(f, s, h, a))
  {
    hide BossSound, MinerSound, Step;
    match a
    case LoadStep => LoadKeepsSound(f, s, h);
    case AskStatus => AskKeepsSound(f, s, h);
    case Receive(i) => ReceiveKeepsSound(f, s, h, i);
    case Try(i) => TryKeepsSound(f, s, h, i);
    case Collect(i) => CollectKeepsSound(f, s, h, i);
    case StartDump => StartKeepsSound(f, s, h);
    case DumpStep(d) => DumpKeepsSound(f, s, h, d);
  }

  lemma StartKeepsSound(f: Hasher, s: Hunt, h: Record)
    requires Sound(f, s, h)
    ensures Sound(f, Step(f, s, StartDump), h)
  {
    hide BossSound, MinerSound;
  }

  lemma {:induction false} RunIsSound(f: Hasher, treasure: seq<Byte>, miners: nat, acts: seq<Action>)
    requires Streams(f) && miners > 0
    ensures Sound(f, Run(f, treasure, miners, acts), Notes(f, treasure, miners, acts))
  {
    hide Step, Noted, NewHunt, Sound;
    if acts == [] {
      NewHuntIsSound(f, treasure, miners);
    } else {
      var front := acts[..|acts| - 1];
      RunIsSound(f, treasure, miners, front);
      StepKeepsSound(f, Run(f, treasure, miners, front), Notes(f, treasure, miners, front), acts[|acts| - 1]);
    }
  }

  lemma NewHuntIsSound(f: Hasher, treasure: seq<Byte>, miners: nat)
    requires Streams(f) && miners > 0
    ensures Sound(f, NewHunt(treasure, miners), Record(0, []))
  {
    assert treasure[..0] == [];
  }

  // ---------------------------------------------------------------- what that means

  // However the reports race, the boss's context is that of the treasure followed by the
  // bytes it appended, its hash is that context's, and each accepted find has added a zero.
  lemma AcceptedFindsExtendTheBest(f: Hasher, treasure: seq<Byte>, miners: nat, acts: seq<Action>)
    requires Streams(f) && miners > 0 && Run(f, treasure, miners, acts).boss.isDone
    ensures var boss, h := Run(f, treasure, miners, acts).boss, Notes(f, treasure, miners, acts);
      && boss.ctx == f.absorb(FRESH, treasure + boss.append)
      && boss.hash == f.hash(boss.ctx)
      && boss.append == Concat(h.finds) && boss.nTreasure == h.base + |h.finds|
      && (h.finds != [] ==> LeadingZeros(boss.hash) == boss.nTreasure)
  {
    hide Run, Notes;
    RunIsSound(f, treasure, miners, acts);
  }

  // With MD5 that hash is the digest of RFC 1321 of those bytes.
  lemma AnnouncedHashIsTheDigest(g: Compressor, treasure: seq<Byte>, miners: nat, acts: seq<Action>)
    requires miners > 0 && Run(Md5Hasher(g), treasure, miners, acts).boss.isDone
    ensures var boss := Run(Md5Hasher(g), treasure, miners, acts).boss;
      boss.hash == Hex(Digest(g, treasure + boss.append))
  {
    hide Run, Notes, Digest, Finish, Absorb;
    Md5Streams(g);
    AcceptedFindsExtendTheBest(Md5Hasher(g), treasure, miners, acts);
    FinishIsDigest(g, treasure + Run(Md5Hasher(g), treasure, miners, acts).boss.append);
  }

  // Nobody is left without something to do at the boss's level.
  lemma NobodyIsStranded(f: Hasher, treasure: seq<Byte>, miners: nat, acts: seq<Action>, i: nat)
    requires Streams(f) && i < miners && Run(f, treasure, miners, acts).boss.isDone
    ensures var s := Run(f, treasure, miners, acts);
      Occupied(s.boss.nTreasure, s.miners[i], s.jobs[i], s.reports[i])
  {
    hide Occupied;
    RunIsSound(f, treasure, miners, acts);
    var s, h := Run(f, treasure, miners, acts), Notes(f, treasure, miners, acts);
    assert MinerSound(f, s.boss, h, s.miners[i], s.jobs[i], s.reports[i]);
  }

  // Once all messages are read, every miner works on exactly the boss's context.
  lemma QuietHuntersWorkOnTheBest(f: Hasher, treasure: seq<Byte>, miners: nat, acts: seq<Action>, i: nat)
    requires Streams(f) && i < miners && Run(f, treasure, miners, acts).boss.isDone
    requires Run(f, treasure, miners, acts).jobs[i] == [] && Run(f, treasure, miners, acts).reports[i] == []
    ensures var s := Run(f, treasure, miners, acts);
      s.miners[i].work && s.miners[i].ctx == s.boss.ctx && s.miners[i].nTreasure == s.boss.nTreasure
  {
    hide Run, Notes, Best, LeadingZeros;
    RunIsSound(f, treasure, miners, acts);
    var s, h := Run(f, treasure, miners, acts), Notes(f, treasure, miners, acts);
    assert MinerSound(f, s.boss, h, s.miners[i], s.jobs[i], s.reports[i]);
    TopLevel(f, s.boss, h);
  }

  lemma StepNeverLowersLevel(f: Hasher, s: Hunt, a: Action)
    requires Formed(s) && s.boss.isDone
    ensures Step(f, s, a).boss.isDone && s.boss.nTreasure <= Step(f, s, a).boss.nTreasure
  {
    hide Ranges, LeadingZeros, AfterTry, Finds, Told, Received, DumpMore;
  }

  lemma {:induction false} LevelNeverFalls(f: Hasher, treasure: seq<Byte>, miners: nat, acts: seq<Action>,
                                           more: seq<Action>)
    requires miners > 0 && Run(f, treasure, miners, acts).boss.isDone
    ensures Run(f, treasure, miners, acts + more).boss.isDone
    ensures Run(f, treasure, miners, acts).boss.nTreasure <= Run(f, treasure, miners, acts + more).boss.nTreasure
  {
    hide Step;
    if more == [] {
      assert acts + more == acts;
    } else {
      var front := more[..|more| - 1];
      LevelNeverFalls(f, treasure, miners, acts, front);
      assert (acts + more)[..|acts + more| - 1] == acts + front;
      StepNeverLowersLevel(f, Run(f, treasure, miners, acts + front), more[|more| - 1]);
    }
  }

  // A report the boss has once overtaken never counts again, and reading it changes
  // nothing but the queue it was in.
  lemma OvertakenReportsChangeNothing(f: Hasher, treasure: seq<Byte>, miners: nat, acts: seq<Action>, more: seq<Action>,
                                      i: nat)
    requires i < miners && Run(f, treasure, miners, acts).boss.isDone
    requires var s := Run(f, treasure, miners, acts + more);
      s.reports[i] != [] && s.reports[i][0].level <= Run(f, treasure, miners, acts).boss.nTreasure
    ensures var s := Run(f, treasure, miners, acts + more);
      Step(f, s, Collect(i)) == s.(reports := s.reports[i := s.reports[i][1..]])
  {
    LevelNeverFalls(f, treasure, miners, acts, more);
  }

  // A dump holds, when it is closed, the very bytes whose hash the boss announces.
  lemma FinishedDumpIsTheBest(f: Hasher, treasure: seq<Byte>, miners: nat, acts: seq<Action>, d: nat)
    requires Streams(f) && miners > 0 && Run(f, treasure, miners, acts).boss.isDone
    requires var s := Run(f, treasure, miners, acts);
      d < |s.dumps| && s.dumps[d].open && !Step(f, s, DumpStep(d)).dumps[d].open
    ensures var s := Run(f, treasure, miners, acts);
      var file := Step(f, s, DumpStep(d)).dumps[d].written;
      file == treasure + s.boss.append && f.hash(f.absorb(FRESH, file)) == s.boss.hash
  {
    hide Run, BossSound, MinersSound;
    RunIsSound(f, treasure, miners, acts);
    AcceptedFindsExtendTheBest(f, treasure, miners, acts);
    DumpEnds(f, Run(f, treasure, miners, acts), d);
  }

  lemma DumpEnds(f: Hasher, s: Hunt, d: nat)
    requires Formed(s) && d < |s.dumps| && s.dumps[d].open && DumpSound(s.boss, s.dumps[d])
    requires !Step(f, s, DumpStep(d)).dumps[d].open
    ensures Step(f, s, DumpStep(d)).dumps[d].written == s.boss.treasure + s.boss.append
  {
    assert s.boss.treasure[..|s.boss.treasure|] == s.boss.treasure;
  }
}
