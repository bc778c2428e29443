/** The boss and its miners: optimistic search for digests with ever more leading zeros.
    Miners extend the context of the level they were given; the boss accepts a report
    only if it is exactly one level above its own. */
module TreasureHunt {
  import opened Bytes
  import opened Md5Spec
  import opened Md5Context
  import opened MinerSearch

  // What the programs use of a hash library: a context that absorbs bytes, and the
  // printed digest of all it has absorbed.
  type HashString = s: string | |s| == 32 witness seq(32, _ => '0')
  datatype Hasher = Hasher(absorb: (Context, seq<Byte>) -> Context, hash: Context -> HashString)

  // How the bytes are cut does not matter.
  ghost predicate Streams(f: Hasher) {
    && f.absorb(FRESH, []) == FRESH
    && forall c, x, y :: f.absorb(f.absorb(c, x), y) == f.absorb(c, x + y)
  }

  lemma AbsorbTwice(f: Hasher, c: Context, x: seq<Byte>, y: seq<Byte>)
    requires Streams(f)
    ensures f.absorb(f.absorb(c, x), y) == f.absorb(c, x + y)
  {
  }

  function Md5Hasher(f: Compressor): Hasher {
    Hasher((c, x) => Absorb(f, c, x), c => Hex(Finish(f, c)))
  }

  lemma Md5Streams(f: Compressor)
    ensures Streams(Md5Hasher(f))
  {
    hide Absorb, Finish;
    forall c, x, y ensures Absorb(f, Absorb(f, c, x), y) == Absorb(f, c, x + y) {
      AbsorbIsAdditive(f, c, x, y);
    }
    AbsorbNothing(f);
  }

  lemma AbsorbNothing(f: Compressor)
    ensures Absorb(f, FRESH, []) == FRESH
  {
    assert FRESH.tail + [] == [];
  }

  // ---------------------------------------------------------------- n_treasure_count

  // The count goes up to the digest's own score if that is higher, and says so by
  // replacing the printed hash.
  method TreasureCount(hashString: string, nTreasure: nat, hash: string) returns (n: nat, hash': string)
    requires |hashString| == 32
    ensures n == if LeadingZeros(hashString) > nTreasure then LeadingZeros(hashString) else nTreasure
    ensures hash' == if LeadingZeros(hashString) > nTreasure then hashString else hash
  {
    n, hash' := nTreasure, hash;
    var ptr := 0;
    while ptr < 32 && hashString[ptr] == '0'
      invariant ptr <= 32 && forall k :: 0 <= k < ptr ==> hashString[k] == '0'
      invariant n == nTreasure && hash' == hash
      invariant 0 < ptr < 32 && hashString[ptr] != '0' ==> ptr <= nTreasure
      invariant ptr == 32 ==> ptr <= nTreasure
    {
      ptr := ptr + 1;
      // past the last digit comes the terminating NUL, which is not '0' either
      if nTreasure < ptr && (ptr == 32 || hashString[ptr] != '0') {
        LeadingZerosIs(hashString, ptr);
        return ptr, hashString;
      }
    }
    LeadingZerosIs(hashString, ptr);
  }

  // ---------------------------------------------------------------- state

  datatype Job =
    | Start(ctx: Context, level: nat, start: int, end: int)
    | NewBest(ctx: Context, level: nat, winner: nat, hash: string)
    | Status

  datatype Report = Report(ctx: Context, level: nat, name: nat, append: seq<Byte>, hash: string)

  datatype Boss = Boss(treasure: seq<Byte>, minePtr: nat, loadLevel: nat, isDone: bool, nTreasure: nat,
                       ctx: Context, append: seq<Byte>, hash: string, winner: nat)

  datatype Miner = Miner(work: bool, nTreasure: nat, ctx: Context, search: Search)

  // A dump file being written: the bytes so far and how far into the treasure it is.
  datatype Dump = Dump(written: seq<Byte>, ptr: nat, open: bool)

  datatype Hunt = Hunt(boss: Boss, miners: seq<Miner>, jobs: seq<seq<Job>>, reports: seq<seq<Report>>,
                       dumps: seq<Dump>)

  datatype Action =
    | LoadStep                 // one call of MD5() in the boss's loop
    | AskStatus
    | Receive(i: nat)          // miner i reads one message
    | Try(i: nat)              // miner i hashes one candidate
    | Collect(i: nat)          // the boss reads one report of miner i
    | StartDump
    | DumpStep(d: nat)

  ghost predicate Formed(s: Hunt) {
    && |s.miners| == |s.jobs| == |s.reports| > 0
    && s.boss.minePtr <= |s.boss.treasure|
    && forall d :: 0 <= d < |s.dumps| ==> s.dumps[d].ptr <= |s.boss.treasure|
  }

  function PacketSize(size: nat): nat {
    if size / 1000000 > 0 then size / 1000000 else 1
  }

  const DUMP_PIECE := 3000000

  ghost predicate Enabled(s: Hunt, a: Action)
    requires Formed(s)
  {
    match a
    case LoadStep => !s.boss.isDone
    case AskStatus => s.boss.isDone
    case Receive(i) => i < |s.miners| && s.jobs[i] != []
    case Try(i) => i < |s.miners| && s.miners[i].work
    case Collect(i) => i < |s.miners| && s.reports[i] != []
    case StartDump => s.boss.isDone
    case DumpStep(d) => d < |s.dumps| && s.dumps[d].open
  }

  // ---------------------------------------------------------------- steps

  // What the score of the bytes so far does to the level and the printed hash.
  ghost function Scored(boss: Boss, hash: HashString): Boss {
    var score := LeadingZeros(hash);
    var n := if score > boss.nTreasure then score else boss.nTreasure;
    boss.(hash := if score > boss.nTreasure then hash else boss.hash,
          loadLevel := if n == boss.loadLevel + 1 then n else boss.loadLevel)
  }

  function PacketEnd(from: nat, size: nat): (to: nat)
    requires from < size
    ensures from < to <= size
  {
    if from + PacketSize(size) > size then size else from + PacketSize(size)
  }

  ghost function PacketLoaded(f: Hasher, boss: Boss): Boss
    requires boss.minePtr < |boss.treasure|
  {
    var to := PacketEnd(boss.minePtr, |boss.treasure|);
    var ctx := f.absorb(boss.ctx, boss.treasure[boss.minePtr..to]);
    Scored(boss.(ctx := ctx, minePtr := to), f.hash(ctx))
  }

  ghost function Loaded(f: Hasher, boss: Boss): Boss
    requires boss.minePtr <= |boss.treasure|
  {
    if boss.minePtr != |boss.treasure| then PacketLoaded(f, boss)
    else boss.(isDone := true, nTreasure := boss.loadLevel, hash := f.hash(boss.ctx), minePtr := 0)
  }

  ghost function StartJobs(boss: Boss, ranges: seq<Range>, jobs: seq<seq<Job>>): (r: seq<seq<Job>>)
    requires |ranges| == |jobs|
    ensures |r| == |jobs|
  {
    seq(|jobs|, i requires 0 <= i < |jobs| =>
      jobs[i] + [Start(boss.ctx, boss.nTreasure, ranges[i].start, ranges[i].end)])
  }

  ghost function ToAll(jobs: seq<seq<Job>>, job: Job): (r: seq<seq<Job>>)
    ensures |r| == |jobs|
  {
    seq(|jobs|, i requires 0 <= i < |jobs| => jobs[i] + [job])
  }

  function Received(m: Miner, job: Job): Miner {
    match job
    case Start(ctx, level, start, end) =>
      // start_tmp is assigned to itself, so it keeps its old value
      Miner(true, level, ctx, m.search.(start := start, end := end))
    case NewBest(ctx, level, _, _) =>
      // clear_mine keeps start and sets everything else back
      Miner(true, level, ctx, Search(m.search.start, 0, 0, []))
    case Status => m
  }

  function Attempt(f: Hasher, m: Miner): Context {
    f.absorb(m.ctx, Candidate(m.search))
  }

  function Finds(f: Hasher, m: Miner): bool {
    LeadingZeros(f.hash(Attempt(f, m))) == m.nTreasure + 1
  }

  function AfterTry(f: Hasher, m: Miner): Miner {
    if Finds(f, m) then
      Miner(false, m.nTreasure, Attempt(f, m), Tried(m.search).(mine := Candidate(m.search)))
    else m.(search := Tried(m.search))
  }

  // What a miner that finds something writes to the boss.
  function Told(f: Hasher, m: Miner, name: nat): Report {
    Report(Attempt(f, m), m.nTreasure + 1, name, Candidate(m.search), f.hash(Attempt(f, m)))
  }

  // The boss takes only a report exactly one level above its own.
  predicate IsNext(boss: Boss, r: Report) {
    r.level == boss.nTreasure + 1
  }

  function News(boss: Boss): Job {
    NewBest(boss.ctx, boss.nTreasure, boss.winner, boss.hash)
  }

  function Accepted(boss: Boss, r: Report): Boss {
    boss.(nTreasure := r.level, ctx := r.ctx, winner := r.name, append := boss.append + r.append, hash := r.hash)
  }

  function DumpMore(boss: Boss, d: Dump): Dump
    requires d.ptr <= |boss.treasure|
  {
    if |boss.treasure| > d.ptr then
      var size := if d.ptr + DUMP_PIECE < |boss.treasure| then DUMP_PIECE else |boss.treasure| - d.ptr;
      Dump(d.written + boss.treasure[d.ptr..d.ptr + size], d.ptr + size, true)
    else Dump(d.written + boss.append, d.ptr, false)
  }

  ghost function Step(f: Hasher, s: Hunt, a: Action): (s': Hunt)
    requires Formed(s)
    ensures Formed(s') && s'.boss.treasure == s.boss.treasure
  {
    if !Enabled(s, a) then s
    else
      match a
      case LoadStep =>
        var boss := Loaded(f, s.boss);
        s.(boss := boss,
           jobs := if boss.isDone then StartJobs(boss, Ranges(|s.miners|, |s.miners|), s.jobs) else s.jobs)
      case AskStatus => s.(jobs := ToAll(s.jobs, Status))
      case Receive(i) =>
        s.(miners := s.miners[i := Received(s.miners[i], s.jobs[i][0])], jobs := s.jobs[i := s.jobs[i][1..]])
      case Try(i) =>
        var m := s.miners[i];
        s.(miners := s.miners[i := AfterTry(f, m)],
           reports := if Finds(f, m) then s.reports[i := s.reports[i] + [Told(f, m, i)]] else s.reports)
      case Collect(i) =>
        var r := s.reports[i][0];
        var rest := s.(reports := s.reports[i := s.reports[i][1..]]);
        if !IsNext(s.boss, r) then rest
        else
          var boss := Accepted(s.boss, r);
          rest.(boss := boss, jobs := ToAll(s.jobs, News(boss)))
      case StartDump => s.(dumps := s.dumps + [Dump([], 0, true)])
      case DumpStep(d) => s.(dumps := s.dumps[d := DumpMore(s.boss, s.dumps[d])])
  }

  ghost function NewHunt(treasure: seq<Byte>, miners: nat): Hunt {
    Hunt(Boss(treasure, 0, 0, false, 0, FRESH, [], "", 0),
         seq(miners, _ => Miner(false, 0, FRESH, Search(0, 0, 0, []))),
         seq(miners, _ => []), seq(miners, _ => []), [])
  }

  ghost function Run(f: Hasher, treasure: seq<Byte>, miners: nat, acts: seq<Action>): (s: Hunt)
    requires miners > 0
    ensures Formed(s) && s.boss.treasure == treasure && |s.miners| == miners
  {
    if acts == [] then NewHunt(treasure, miners)
    else Step(f, Run(f, treasure, miners, acts[..|acts| - 1]), acts[|acts| - 1])
  }
}
