/** Which strings the miners hash in a run, turn by turn: a miner's jobs say where it
    starts, and its turns follow the enumeration from there. */
module TreasureSearch {
  import opened Bytes
  import opened Md5Spec
  import opened Md5Context
  import opened MinerSearch
  import opened TreasureHunt
  import opened Options

  // ---------------------------------------------------------------- what a miner is at

  // Where the search stands that a job of mode 3 sets off: only the start of the range is
  // left of the first job.
  function Afresh(start: int): Search {
    Search(start, 0, 0, [])
  }

  // Since its newest job: where the miner began, and what it has hashed.
  datatype Quest = Quest(origin: Search, hashed: seq<seq<Byte>>)

  function Share(num: nat, i: nat): Range
    requires i < num
  {
    Ranges(num, num)[i]
  }

  function FirstOf(num: nat, i: nat): Search
    requires i < num
  {
    FirstJob(Share(num, i).start, Share(num, i).end)
  }

  ghost function QuestNext(s: Hunt, a: Action, i: nat, q: Option<Quest>): Option<Quest>
    requires Formed(s) && i < |s.miners|
  {
    if !Enabled(s, a) then q
    else
      match a
      case Receive(j) =>
        if j != i || s.jobs[i][0].Status? then q
        else if s.jobs[i][0].Start? then Some(Quest(FirstOf(|s.miners|, i), []))
        else Some(Quest(Afresh(Share(|s.miners|, i).start), []))
      case Try(j) =>
        if j != i || q.None? then q
        else Some(Quest(q.value.origin, q.value.hashed + [Candidate(s.miners[i].search)]))
      case _ => q
  }

  ghost function QuestOf(f: Hasher, treasure: seq<Byte>, miners: nat, acts: seq<Action>, i: nat): Option<Quest>
    requires i < miners
  {
    if acts == [] then None
    else
      var front := acts[..|acts| - 1];
      QuestNext(Run(f, treasure, miners, front), acts[|acts| - 1], i, QuestOf(f, treasure, miners, front, i))
  }

  ghost predicate InOrder(q: Quest) {
    forall u :: 0 <= u < |q.hashed| ==> q.hashed[u] == Candidate(After(q.origin, u))
  }

  ghost predicate NoStart(jobs: seq<Job>) {
    forall k :: 0 <= k < |jobs| ==> !jobs[k].Start?
  }

  // A miner has its start job before it, or has read it and goes on from its newest job.
  ghost predicate QuestFits(boss: Boss, m: Miner, jobs: seq<Job>, range: Range, q: Option<Quest>) {
    match q
    case None =>
      && !m.work && m.search == Search(0, 0, 0, [])
      && if !boss.isDone then jobs == []
         else jobs != [] && jobs[0].Start? && Range(jobs[0].start, jobs[0].end) == range && NoStart(jobs[1..])
    case Some(quest) =>
      && boss.isDone && NoStart(jobs) && m.search.start == range.start && InOrder(quest)
      && (m.work ==> m.search == After(quest.origin, |quest.hashed|))
      && (!m.work ==> quest.hashed != [] && m.search.mine == quest.hashed[|quest.hashed| - 1])
  }

  lemma TurnInOrder(q: Quest, search: Search)
    requires InOrder(q) && search == After(q.origin, |q.hashed|)
    ensures InOrder(Quest(q.origin, q.hashed + [Candidate(search)]))
    ensures Tried(search) == After(q.origin, |q.hashed| + 1)
  {
    hide Candidate, Tried;
  }

  lemma TriedKeepsStart(s: Search)
    ensures Tried(s).start == s.start
  {
  }

  // ---------------------------------------------------------------- steps keep it

  lemma MoreToRead(boss: Boss, boss': Boss, m: Miner, jobs: seq<Job>, range: Range, q: Option<Quest>, job: Job)
    requires QuestFits(boss, m, jobs, range, q) && boss.isDone && boss'.isDone && !job.Start?
    ensures QuestFits(boss', m, jobs + [job], range, q)
  {
    hide After, Candidate;
    if jobs != [] {
      assert (jobs + [job])[1..] == jobs[1..] + [job];
    }
  }

  lemma JobIsRead(boss: Boss, m: Miner, jobs: seq<Job>, num: nat, i: nat, q: Option<Quest>)
    requires i < num && QuestFits(boss, m, jobs, Share(num, i), q) && jobs != []
    ensures var q' := if jobs[0].Status? then q
                      else if jobs[0].Start? then Some(Quest(FirstOf(num, i), []))
                      else Some(Quest(Afresh(Share(num, i).start), []));
      QuestFits(boss, Received(m, jobs[0]), jobs[1..], Share(num, i), q')
  {
    hide Ranges, Candidate, After;
    NoTries(FirstOf(num, i));
    NoTries(Afresh(Share(num, i).start));
  }

  lemma TurnIsTaken(f: Hasher, boss: Boss, m: Miner, jobs: seq<Job>, range: Range, q: Quest)
    requires QuestFits(boss, m, jobs, range, Some(q)) && m.work
    ensures QuestFits(boss, AfterTry(f, m), jobs, range, Some(Quest(q.origin, q.hashed + [Candidate(m.search)])))
  {
    hide After, Candidate, Tried, InOrder, Finds, Attempt;
    TurnInOrder(q, m.search);
    TriedKeepsStart(m.search);
  }

  lemma LoadFits(f: Hasher, s: Hunt, i: nat, q: Option<Quest>)
    requires Formed(s) && i < |s.miners| && QuestFits(s.boss, s.miners[i], s.jobs[i], Share(|s.miners|, i), q)
    ensures var s' := Step(f, s, LoadStep); QuestFits(s'.boss, s'.miners[i], s'.jobs[i], Share(|s.miners|, i), q)
  {
    hide LeadingZeros, Ranges, After, Candidate;
  }

  lemma StepFits(f: Hasher, s: Hunt, a: Action, i: nat, q: Option<Quest>)
    requires Formed(s) && i < |s.miners| && QuestFits(s.boss, s.miners[i], s.jobs[i], Share(|s.miners|, i), q)
    requires a.Collect? && Enabled(s, a) ==> s.boss.isDone
    ensures var s' := Step(f, s, a);
      QuestFits(s'.boss, s'.miners[i], s'.jobs[i], Share(|s.miners|, i), QuestNext(s, a, i, q))
  {
    hide QuestFits, Received, AfterTry, Finds, Told, Ranges, Loaded, DumpMore;
    match a
    case LoadStep => LoadFits(f, s, i, q);
    case AskStatus =>
      if s.boss.isDone {
        MoreToRead(s.boss, s.boss, s.miners[i], s.jobs[i], Share(|s.miners|, i), q, Status);
      }
    case Receive(j) =>
      if Enabled(s, a) && j == i {
        JobIsRead(s.boss, s.miners[i], s.jobs[i], |s.miners|, i, q);
      }
    case Try(j) =>
      if Enabled(s, a) && j == i {
        WorkersHaveQuests(s.boss, s.miners[i], s.jobs[i], Share(|s.miners|, i), q);
        TurnIsTaken(f, s.boss, s.miners[i], s.jobs[i], Share(|s.miners|, i), q.value);
      }
    case Collect(j) =>
      if Enabled(s, a) && IsNext(s.boss, s.reports[j][0]) {
        var boss := Accepted(s.boss, s.reports[j][0]);
        MoreToRead(s.boss, boss, s.miners[i], s.jobs[i], Share(|s.miners|, i), q, News(boss));
      }
    case StartDump =>
    case DumpStep(_) =>
  }

  lemma WorkersHaveQuests(boss: Boss, m: Miner, jobs: seq<Job>, range: Range, q: Option<Quest>)
    requires QuestFits(boss, m, jobs, range, q) && m.work
    ensures q.Some?
  {
  }

  // Nobody does anything before the treasure is loaded.
  ghost predicate Asleep(s: Hunt) {
    Formed(s) && (!s.boss.isDone ==>
      forall i :: 0 <= i < |s.miners| ==> s.jobs[i] == [] && s.reports[i] == [] && !s.miners[i].work)
  }

  lemma StepKeepsAsleep(f: Hasher, s: Hunt, a: Action)
    requires Asleep(s)
    ensures Asleep(Step(f, s, a))
  {
    hide LeadingZeros, Ranges, AfterTry, Finds, Told, Received, DumpMore;
  }

  lemma {:induction false} RunFits(f: Hasher, treasure: seq<Byte>, miners: nat, acts: seq<Action>, i: nat)
    requires i < miners
    ensures Asleep(Run(f, treasure, miners, acts))
    ensures var s := Run(f, treasure, miners, acts);
      QuestFits(s.boss, s.miners[i], s.jobs[i], Share(miners, i), QuestOf(f, treasure, miners, acts, i))
  {
    if acts != [] {
      hide Step, QuestFits, QuestNext, Enabled, Ranges;
      var front, last := acts[..|acts| - 1], acts[|acts| - 1];
      RunFits(f, treasure, miners, front, i);
      StepKeepsAsleep(f, Run(f, treasure, miners, front), last);
      OnlyAfterLoading(Run(f, treasure, miners, front), last);
      StepFits(f, Run(f, treasure, miners, front), last, i, QuestOf(f, treasure, miners, front, i));
    } else {
      hide Ranges;
    }
  }

  lemma OnlyAfterLoading(s: Hunt, a: Action)
    requires Asleep(s)
    ensures a.Collect? && Enabled(s, a) ==> s.boss.isDone
  {
  }

  // In every run a miner that has read a job has hashed, turn by turn, what the
  // enumeration lists from where that job set it; and a working miner goes on there. The
  // first job sets it to the start of its share of the byte values, and a job sent after a
  // find to the same share, of which only the start is left. One that has found something
  // holds the string it found and waits.
  lemma MinersSearchInOrder(f: Hasher, treasure: seq<Byte>, miners: nat, acts: seq<Action>, i: nat)
    requires i < miners
    ensures var m, q := Run(f, treasure, miners, acts).miners[i], QuestOf(f, treasure, miners, acts, i);
      && (m.work ==> q.Some? && m.search == After(q.value.origin, |q.value.hashed|))
      && (q.Some? && !m.work ==> q.value.hashed != [] && m.search.mine == q.value.hashed[|q.value.hashed| - 1])
      && (q.Some? ==>
            && (q.value.origin == FirstOf(miners, i) || q.value.origin == Afresh(Share(miners, i).start))
            && forall u :: 0 <= u < |q.value.hashed| ==> q.value.hashed[u] == Candidate(After(q.value.origin, u)))
  {
    RunFits(f, treasure, miners, acts, i);
    OriginIsOneOfTwo(f, treasure, miners, acts, i);
  }

  lemma {:induction false} OriginIsOneOfTwo(f: Hasher, treasure: seq<Byte>, miners: nat, acts: seq<Action>, i: nat)
    requires i < miners
    ensures var q := QuestOf(f, treasure, miners, acts, i);
      q.Some? ==> q.value.origin == FirstOf(miners, i) || q.value.origin == Afresh(Share(miners, i).start)
  {
    hide Ranges, Run;
    if acts != [] {
      OriginIsOneOfTwo(f, treasure, miners, acts[..|acts| - 1], i);
    }
  }

  // ---------------------------------------------------------------- until something is found

  ghost predicate NothingFound(f: Hasher, treasure: seq<Byte>, miners: nat, acts: seq<Action>)
    requires miners > 0
  {
    acts == [] ||
    var front, last := acts[..|acts| - 1], acts[|acts| - 1];
    var s := Run(f, treasure, miners, front);
    NothingFound(f, treasure, miners, front)
    && (last.Try? && Enabled(s, last) ==> !Finds(f, s.miners[last.i]))
  }

  ghost predicate NoNews(s: Hunt) {
    Formed(s) && forall i :: 0 <= i < |s.miners| ==>
      s.reports[i] == [] && forall k :: 0 <= k < |s.jobs[i]| ==> !s.jobs[i][k].NewBest?
  }

  lemma StepBringsNoNews(f: Hasher, s: Hunt, a: Action)
    requires NoNews(s) && (a.Try? && Enabled(s, a) ==> !Finds(f, s.miners[a.i]))
    ensures NoNews(Step(f, s, a))
  {
    hide LeadingZeros, Ranges, AfterTry, Finds, Told, Received, DumpMore;
  }

  lemma {:induction false} StillFirstJobs(f: Hasher, treasure: seq<Byte>, miners: nat, acts: seq<Action>, i: nat)
    requires i < miners && NothingFound(f, treasure, miners, acts)
    ensures NoNews(Run(f, treasure, miners, acts))
    ensures var q := QuestOf(f, treasure, miners, acts, i); q.Some? ==> q.value.origin == FirstOf(miners, i)
  {
    hide Ranges, Finds;
    if acts != [] {
      var front, last := acts[..|acts| - 1], acts[|acts| - 1];
      StillFirstJobs(f, treasure, miners, front, i);
      hide Run, Step;
      assert Run(f, treasure, miners, acts) == Step(f, Run(f, treasure, miners, front), last) by {
        RunAfter(f, treasure, miners, front, last);
        assert front + [last] == acts;
      }
      StepBringsNoNews(f, Run(f, treasure, miners, front), last);
      NewsComesFirst(Run(f, treasure, miners, front), last, i);
    }
  }

  lemma RunAfter(f: Hasher, treasure: seq<Byte>, miners: nat, acts: seq<Action>, a: Action)
    requires miners > 0
    ensures Run(f, treasure, miners, acts + [a]) == Step(f, Run(f, treasure, miners, acts), a)
  {
    assert (acts + [a])[..|acts|] == acts;
  }

  lemma NewsComesFirst(s: Hunt, a: Action, i: nat)
    requires NoNews(s) && i < |s.miners|
    ensures a == Receive(i) && Enabled(s, a) ==> !s.jobs[i][0].NewBest?
  {
  }

  // w is among what was hashed, and nothing longer was before it.
  ghost predicate InTime(hashed: seq<seq<Byte>>, w: seq<Byte>) {
    exists u :: 0 <= u < |hashed| && hashed[u] == w && forall v :: 0 <= v <= u ==> |hashed[v]| <= |w|
  }

  // What was hashed from there in so many turns or more.
  lemma TurnsReach(q: Quest, w: seq<Byte>, t: nat)
    requires InOrder(q) && TriedAt(q.origin, w, t) && t < |q.hashed|
    ensures InTime(q.hashed, w)
  {
    hide After, Prepared;
    forall v | 0 <= v <= t ensures |q.hashed[v]| <= |w| {
      assert q.hashed[v] == Candidate(After(q.origin, v));
    }
  }

  lemma HashedIsTried(q: Quest, w: seq<Byte>)
    requires InOrder(q) && InTime(q.hashed, w)
    ensures Tries(q.origin, w)
  {
    hide After, Candidate;
    var u :| 0 <= u < |q.hashed| && q.hashed[u] == w;
    CandidateIsTried(q.origin, w, u);
  }

  // Every miner has taken more than so many turns.
  ghost predicate AllTurned(f: Hasher, treasure: seq<Byte>, miners: nat, acts: seq<Action>, t: nat) {
    forall i: nat :: i < miners ==>
      var q := QuestOf(f, treasure, miners, acts, i); q.Some? && |q.value.hashed| > t
  }

  ghost predicate SomeoneHashed(f: Hasher, treasure: seq<Byte>, miners: nat, acts: seq<Action>, w: seq<Byte>) {
    exists i: nat :: i < miners &&
      var q := QuestOf(f, treasure, miners, acts, i); q.Some? && InTime(q.value.hashed, w)
  }

  // However the hunt goes, w has been hashed by the time every miner has taken more than t
  // turns, if nothing has been found until then.
  ghost predicate HashedWithin(miners: nat, w: seq<Byte>, t: nat)
    requires miners > 0
  {
    forall f: Hasher, treasure: seq<Byte>, acts: seq<Action> ::
      NothingFound(f, treasure, miners, acts) && AllTurned(f, treasure, miners, acts, t) ==>
        SomeoneHashed(f, treasure, miners, acts, w)
  }

  lemma TriedIsHashed(miners: nat, w: seq<Byte>) returns (t: nat)
    requires miners > 0 && SomeoneTries(miners, w)
    ensures HashedWithin(miners, w, t)
  {
    hide Ranges, TriedAt, NothingFound, InTime, InOrder, QuestOf;
    var i: nat :| i < miners && Tries(FirstJob(Ranges(miners, miners)[i].start, Ranges(miners, miners)[i].end), w);
    t :| TriedAt(FirstOf(miners, i), w, t);
    forall f: Hasher, treasure: seq<Byte>, acts: seq<Action>
      | NothingFound(f, treasure, miners, acts) && AllTurned(f, treasure, miners, acts, t)
      ensures SomeoneHashed(f, treasure, miners, acts, w)
    {
      StillFirstJobs(f, treasure, miners, acts, i);
      QuestInOrder(f, treasure, miners, acts, i);
      var q := QuestOf(f, treasure, miners, acts, i);
      TurnsReach(q.value, w, t);
    }
  }

  lemma QuestInOrder(f: Hasher, treasure: seq<Byte>, miners: nat, acts: seq<Action>, i: nat)
    requires i < miners
    ensures var q := QuestOf(f, treasure, miners, acts, i); q.Some? ==> InOrder(q.value)
  {
    hide Ranges, Run, QuestOf;
    RunFits(f, treasure, miners, acts, i);
  }

  // ---------------------------------------------------------------- a hunt that finds nothing

  function Silent(): Hasher {
    Hasher((c: Context, _) => c, (_: Context) => seq(32, _ => 'f'))
  }

  lemma SilentNeverFinds(m: Miner)
    ensures !Finds(Silent(), m)
  {
    hide Candidate;
  }

  lemma {:induction false} NothingIsEverFound(treasure: seq<Byte>, miners: nat, acts: seq<Action>)
    requires miners > 0
    ensures NothingFound(Silent(), treasure, miners, acts)
  {
    hide Run, Finds;
    if acts != [] {
      var front, last := acts[..|acts| - 1], acts[|acts| - 1];
      NothingIsEverFound(treasure, miners, front);
      if last.Try? && Enabled(Run(Silent(), treasure, miners, front), last) {
        SilentNeverFinds(Run(Silent(), treasure, miners, front).miners[last.i]);
      }
    }
  }

  lemma QuestAfter(f: Hasher, treasure: seq<Byte>, miners: nat, acts: seq<Action>, a: Action, i: nat)
    requires i < miners
    ensures Run(f, treasure, miners, acts + [a]) == Step(f, Run(f, treasure, miners, acts), a)
    ensures QuestOf(f, treasure, miners, acts + [a], i) ==
            QuestNext(Run(f, treasure, miners, acts), a, i, QuestOf(f, treasure, miners, acts, i))
  {
    RunAfter(f, treasure, miners, acts, a);
    assert (acts + [a])[..|acts|] == acts;
  }

  ghost function SilentRun(miners: nat, acts: seq<Action>): (s: Hunt)
    requires miners > 0
    ensures Formed(s) && |s.miners| == miners
  {
    Run(Silent(), [], miners, acts)
  }

  ghost function SilentQuest(miners: nat, acts: seq<Action>, i: nat): Option<Quest>
    requires i < miners
  {
    QuestOf(Silent(), [], miners, acts, i)
  }

  // The first n miners are at work, the others have their job before them.
  ghost predicate Started(miners: nat, acts: seq<Action>, n: nat)
    requires miners > 0
  {
    var s := SilentRun(miners, acts);
    && (forall i: nat :: i < n && i < miners ==> s.miners[i].work && SilentQuest(miners, acts, i).Some?)
    && (forall i: nat :: n <= i < miners ==> s.jobs[i] != [] && s.jobs[i][0].Start?)
  }

  lemma EmptyTreasureLoads(miners: nat)
    requires miners > 0
    ensures Started(miners, [LoadStep], 0)
  {
    hide Ranges;
    RunAfter(Silent(), [], miners, [], LoadStep);
    assert [] + [LoadStep] == [LoadStep];
    assert Run(Silent(), [], miners, []) == NewHunt([], miners);
  }

  lemma StartsOneMore(miners: nat, acts: seq<Action>, n: nat)
    requires n < miners && Started(miners, acts, n)
    ensures Started(miners, acts + [Receive(n)], n + 1)
  {
    hide Run, QuestOf, Ranges;
    forall i: nat | i < miners
      ensures SilentQuest(miners, acts + [Receive(n)], i) ==
              QuestNext(SilentRun(miners, acts), Receive(n), i, SilentQuest(miners, acts, i))
    {
      QuestAfter(Silent(), [], miners, acts, Receive(n), i);
    }
    RunAfter(Silent(), [], miners, acts, Receive(n));
    var s, s' := SilentRun(miners, acts), SilentRun(miners, acts + [Receive(n)]);
    assert s' == Step(Silent(), s, Receive(n)) && Enabled(s, Receive(n));
    assert s'.miners[n].work && SilentQuest(miners, acts + [Receive(n)], n).Some?;
  }

  // All at work, the first n with more than t turns, the next with k.
  ghost predicate Turned(miners: nat, acts: seq<Action>, t: nat, n: nat, k: nat)
    requires miners > 0
  {
    && Started(miners, acts, miners)
    && (forall i: nat :: i < n && i < miners ==> |SilentQuest(miners, acts, i).value.hashed| > t)
    && (n < miners ==> |SilentQuest(miners, acts, n).value.hashed| >= k)
  }

  lemma TurnsOneMore(miners: nat, acts: seq<Action>, t: nat, n: nat, k: nat)
    requires n < miners && Turned(miners, acts, t, n, k)
    ensures Turned(miners, acts + [Try(n)], t, n, k + 1)
  {
    hide Run, QuestOf, Ranges, Candidate, Tried, Finds, Attempt;
    SilentNeverFinds(SilentRun(miners, acts).miners[n]);
    forall i: nat | i < miners
      ensures SilentQuest(miners, acts + [Try(n)], i) ==
              QuestNext(SilentRun(miners, acts), Try(n), i, SilentQuest(miners, acts, i))
    {
      QuestAfter(Silent(), [], miners, acts, Try(n), i);
    }
    RunAfter(Silent(), [], miners, acts, Try(n));
  }

  lemma EverybodyTurns(miners: nat, t: nat) returns (acts: seq<Action>)
    requires miners > 0
    ensures AllTurned(Silent(), [], miners, acts, t)
  {
    hide Started, Turned, AllTurned;
    acts := [LoadStep];
    EmptyTreasureLoads(miners);
    var n: nat := 0;
    while n < miners
      invariant n <= miners && Started(miners, acts, n)
    {
      StartsOneMore(miners, acts, n);
      acts, n := acts + [Receive(n)], n + 1;
    }
    n := 0;
    NobodyHasTurned(miners, acts, t);
    while n < miners
      invariant n <= miners && Turned(miners, acts, t, n, 0)
    {
      var k: nat := 0;
      while k <= t
        invariant k <= t + 1 && Turned(miners, acts, t, n, k)
      {
        TurnsOneMore(miners, acts, t, n, k);
        acts, k := acts + [Try(n)], k + 1;
      }
      NextMiner(miners, acts, t, n);
      n := n + 1;
    }
    AllHaveTurned(miners, acts, t);
  }

  lemma NobodyHasTurned(miners: nat, acts: seq<Action>, t: nat)
    requires miners > 0 && Started(miners, acts, miners)
    ensures Turned(miners, acts, t, 0, 0)
  {
    hide SilentRun, QuestOf;
  }

  lemma NextMiner(miners: nat, acts: seq<Action>, t: nat, n: nat)
    requires n < miners && Turned(miners, acts, t, n, t + 1)
    ensures Turned(miners, acts, t, n + 1, 0)
  {
    hide SilentRun, QuestOf;
  }

  lemma AllHaveTurned(miners: nat, acts: seq<Action>, t: nat)
    requires miners > 0 && Turned(miners, acts, t, miners, 0)
    ensures AllTurned(Silent(), [], miners, acts, t)
  {
    hide SilentRun, QuestOf;
    forall i: nat | i < miners
      ensures var q := QuestOf(Silent(), [], miners, acts, i); q.Some? && |q.value.hashed| > t
    {
      assert SilentQuest(miners, acts, i).Some? && |SilentQuest(miners, acts, i).value.hashed| > t;
    }
  }

  // ---------------------------------------------------------------- what the miners cover

  // Some number of turns each is enough to have a string hashed, however the hunt goes
  // until something is found, if and only if it is among what the first jobs try.
  lemma HashedIffTried(miners: nat, w: seq<Byte>)
    requires miners > 0
    ensures (exists t: nat :: HashedWithin(miners, w, t)) <==> SomeoneTries(miners, w)
  {
    hide HashedWithin, SomeoneTries;
    if SomeoneTries(miners, w) {
      var t := TriedIsHashed(miners, w);
    }
    if t: nat :| HashedWithin(miners, w, t) {
      HashedIsTriedBySomeone(miners, w, t);
    }
  }

  lemma HashedIsTriedBySomeone(miners: nat, w: seq<Byte>, t: nat)
    requires miners > 0 && HashedWithin(miners, w, t)
    ensures SomeoneTries(miners, w)
  {
    hide QuestOf, InTime, InOrder, Tries, Ranges, AllTurned, NothingFound;
    var acts := EverybodyTurns(miners, t);
    NothingIsEverFound([], miners, acts);
    assert SomeoneHashed(Silent(), [], miners, acts, w);
    var i: nat :| i < miners &&
      var q := QuestOf(Silent(), [], miners, acts, i); q.Some? && InTime(q.value.hashed, w);
    QuestInOrder(Silent(), [], miners, acts, i);
    StillFirstJobs(Silent(), [], miners, acts, i);
    HashedIsTried(QuestOf(Silent(), [], miners, acts, i).value, w);
    assert Tries(FirstJob(Ranges(miners, miners)[i].start, Ranges(miners, miners)[i].end), w);
  }

  // In the runs of the hunt: until something is found every non-empty string whose prefix
  // fits is hashed after a number of turns each that depends on the string only, before
  // anything longer, if and only if the number of miners divides 256.
  lemma RunsCoverAllIff(miners: nat, capacity: nat)
    requires miners > 0
    ensures (forall w: seq<Byte> :: 0 < |w| <= capacity + 1 ==> exists t: nat :: HashedWithin(miners, w, t)) <==>
            256 % miners == 0
  {
    hide HashedWithin, SomeoneTries;
    FirstJobsCoverAllIff(miners, capacity);
    forall w: seq<Byte> ensures (exists t: nat :: HashedWithin(miners, w, t)) <==> SomeoneTries(miners, w) {
      HashedIffTried(miners, w);
    }
  }

  // ---------------------------------------------------------------- after a find

  lemma {:induction false} AfterFindStands(start: int, t: nat)
    requires 0 <= start <= 255
    ensures After(Afresh(start), t) ==
            if t == 0 then Afresh(start) else Search(start, 0, if t == 1 then 1 else start + 1, Nth(t - 1))
  {
    hide Successor;
    if t > 0 {
      AfterFindStands(start, t - 1);
    }
  }

  lemma AfterFindHashes(start: int, t: nat)
    requires 0 <= start <= 255
    ensures Candidate(After(Afresh(start), t)) == if t == 0 then [0] else Nth(t) + [start]
  {
    hide Successor, After;
    AfterFindStands(start, t);
  }

  lemma NthIsEmptyAtFirst(t: nat)
    ensures Nth(t) == [] <==> t == 0
  {
    RankOfNth(t);
  }

  // After a find each miner tries one of the 256 last bytes only, the start of its share,
  // and of the single bytes only 0.
  lemma AfterFindTriesExactly(start: int, w: seq<Byte>)
    requires 0 <= start <= 255
    ensures Tries(Afresh(start), w) <==> w == [0] || (|w| > 1 && w[|w| - 1] == start)
  {
    hide After, Candidate, Nth, Rank;
    if Tries(Afresh(start), w) {
      var t: nat :| TriedAt(Afresh(start), w, t);
      AfterFindHashes(start, t);
      NthIsEmptyAtFirst(t);
    }
    if w == [0] {
      AfterFindHashes(start, 0);
      CandidateIsTried(Afresh(start), w, 0);
    } else if |w| > 1 && w[|w| - 1] == start {
      var p := w[..|w| - 1];
      EveryStringIsNth(p);
      NthIsEmptyAtFirst(Rank(p));
      AfterFindHashes(start, Rank(p));
      assert w == p + [start];
      CandidateIsTried(Afresh(start), w, Rank(p));
    }
  }

  // So a string like [1] is tried by nobody then, however many miners there are.
  lemma NobodyTriesOneAfterAFind(miners: nat, i: nat)
    requires i < miners
    ensures 0 <= Share(miners, i).start <= 255 && !Tries(Afresh(Share(miners, i).start), [1])
  {
    hide Ranges, Tries;
    ShareFits(miners, i);
    RangesAreEqualShares(miners, miners, i);
    StartIsAByte(i, 256 / miners);
    AfterFindTriesExactly(Share(miners, i).start, [1]);
  }

  lemma StartIsAByte(i: nat, l: nat)
    requires (i + 1) * l <= 256
    ensures 0 <= i * l <= 255
  {
    assert (i + 1) * l == i * l + l;
    if l == 0 {
      assert i * l == 0;
    }
  }
}
