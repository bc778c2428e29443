/** What the miners are told: every message about a find names the miner that made it and
    the hash of that level. */
module TreasureNews {
  import opened Bytes
  import opened Md5Context
  import opened MinerSearch
  import opened TreasureHunt
  import opened TreasureProofs

  // Who sent the accepted finds, in order.
  ghost function Finders(f: Hasher, treasure: seq<Byte>, miners: nat, acts: seq<Action>): seq<nat>
    requires miners > 0
  {
    if acts == [] then []
    else
      var front := acts[..|acts| - 1];
      FindersNext(Run(f, treasure, miners, front), acts[|acts| - 1], Finders(f, treasure, miners, front))
  }

  ghost function FindersNext(s: Hunt, a: Action, finders: seq<nat>): seq<nat>
    requires Formed(s)
  {
    if a.Collect? && Enabled(s, a) && IsNext(s.boss, s.reports[a.i][0]) then finders + [a.i] else finders
  }

  // The message is about the find that led to its level.
  ghost predicate NewsSound(f: Hasher, base: nat, finders: seq<nat>, job: Job) {
    job.NewBest? ==>
      && base < job.level <= base + |finders| && job.winner == finders[job.level - base - 1]
      && job.hash == f.hash(job.ctx) && LeadingZeros(job.hash) == job.level
  }

  ghost predicate ToldSound(f: Hasher, s: Hunt, h: Record, finders: seq<nat>) {
    && Formed(s)
    && |finders| == |h.finds| && s.boss.winner == (if finders == [] then 0 else finders[|finders| - 1])
    && (forall i, k :: 0 <= i < |s.miners| && 0 <= k < |s.reports[i]| ==> s.reports[i][k].name == i)
    && (forall i, k :: 0 <= i < |s.miners| && 0 <= k < |s.jobs[i]| ==> NewsSound(f, h.base, finders, s.jobs[i][k]))
    && (!s.boss.isDone ==> finders == [] && forall i :: 0 <= i < |s.miners| ==> s.jobs[i] == [])
  }

  lemma NewsOfAccepted(f: Hasher, s: Hunt, h: Record, finders: seq<nat>, i: nat)
    requires Sound(f, s, h) && ToldSound(f, s, h, finders) && Enabled(s, Collect(i)) && IsNext(s.boss, s.reports[i][0])
    ensures s.boss.isDone
    ensures NewsSound(f, h.base, finders + [i], News(Accepted(s.boss, s.reports[i][0])))
  {
    hide LeadingZeros, BossSound, MinerSound;
    OnlyTheDoneReport(f, s, h, i);
    DoneBossLevel(f, s.boss, h);
  }

  lemma DoneBossLevel(f: Hasher, boss: Boss, h: Record)
    requires BossSound(f, boss, h) && boss.isDone
    ensures boss.nTreasure == h.base + |h.finds|
  {
  }

  // Whatever the boss does not collect leaves its messages what they are.
  lemma OthersKeepTold(f: Hasher, s: Hunt, h: Record, finders: seq<nat>, a: Action)
    requires ToldSound(f, s, h, finders) && !a.LoadStep? && !a.Collect?
    ensures ToldSound(f, Step(f, s, a), h, finders)
  {
    hide LeadingZeros, AfterTry, Finds, Received, DumpMore, Attempt, Candidate, NewsSound;
    assert NewsSound(f, h.base, finders, Status) by {
      StatusSaysNothing(f, h.base, finders);
    }
  }

  lemma StatusSaysNothing(f: Hasher, base: nat, finders: seq<nat>)
    ensures NewsSound(f, base, finders, Status)
  {
  }

  lemma NewsStaysSound(f: Hasher, base: nat, finders: seq<nat>, i: nat, job: Job)
    requires NewsSound(f, base, finders, job)
    ensures NewsSound(f, base, finders + [i], job)
  {
    hide LeadingZeros;
  }

  lemma CollectKeepsTold(f: Hasher, s: Hunt, h: Record, finders: seq<nat>, i: nat)
    requires Sound(f, s, h) && ToldSound(f, s, h, finders)
    ensures ToldSound(f, Step(f, s, Collect(i)), Noted(f, s, h, Collect(i)), FindersNext(s, Collect(i), finders))
  {
    hide LeadingZeros, Sound, NewsSound;
    if Enabled(s, Collect(i)) && IsNext(s.boss, s.reports[i][0]) {
      NewsOfAccepted(f, s, h, finders, i);
      forall j, k | 0 <= j < |s.miners| && 0 <= k < |s.jobs[j]|
        ensures NewsSound(f, h.base, finders + [i], s.jobs[j][k])
      {
        NewsStaysSound(f, h.base, finders, i, s.jobs[j][k]);
      }
    }
  }

  lemma StepKeepsTold(f: Hasher, s: Hunt, h: Record, finders: seq<nat>, a: Action)
    requires Streams(f) && Sound(f, s, h) && ToldSound(f, s, h, finders)
    ensures ToldSound(f, Step(f, s, a), Noted(f, s, h, a), FindersNext(s, a, finders))
  {
    hide Sound, ToldSound, Step;
    match a
    case LoadStep => LoadKeepsTold(f, s, h, finders);
    case Collect(i) => CollectKeepsTold(f, s, h, finders, i);
    case _ => OthersKeepTold(f, s, h, finders, a);
  }

  lemma LoadKeepsTold(f: Hasher, s: Hunt, h: Record, finders: seq<nat>)
    requires ToldSound(f, s, h, finders)
    ensures ToldSound(f, Step(f, s, LoadStep), Noted(f, s, h, LoadStep), finders)
  {
    hide LeadingZeros;
  }

  lemma {:induction false} RunKeepsTold(f: Hasher, treasure: seq<Byte>, miners: nat, acts: seq<Action>)
    requires Streams(f) && miners > 0
    ensures ToldSound(f, Run(f, treasure, miners, acts), Notes(f, treasure, miners, acts),
                      Finders(f, treasure, miners, acts))
  {
    if acts != [] {
      hide Step, Noted, Sound, ToldSound;
      var front := acts[..|acts| - 1];
      RunIsSound(f, treasure, miners, front);
      RunKeepsTold(f, treasure, miners, front);
      StepKeepsTold(f, Run(f, treasure, miners, front), Notes(f, treasure, miners, front),
                    Finders(f, treasure, miners, front), acts[|acts| - 1]);
    }
  }

  // In every run the boss's winner is the miner whose find it accepted last, and every
  // message of a find on its way says whose find led to the level it announces, and the
  // hash of that level, with as many zeros.
  lemma WinnersAreTold(f: Hasher, treasure: seq<Byte>, miners: nat, acts: seq<Action>, i: nat, k: nat)
    requires Streams(f) && i < miners
    requires var s := Run(f, treasure, miners, acts); k < |s.jobs[i]| && s.jobs[i][k].NewBest?
    ensures var s, finders := Run(f, treasure, miners, acts), Finders(f, treasure, miners, acts);
      var job, base := s.jobs[i][k], Notes(f, treasure, miners, acts).base;
      && base < job.level <= base + |finders| && job.winner == finders[job.level - base - 1]
      && job.hash == f.hash(job.ctx) && LeadingZeros(job.hash) == job.level
      && s.boss.winner == finders[|finders| - 1]
  {
    hide Run, Notes, LeadingZeros;
    RunKeepsTold(f, treasure, miners, acts);
    assert NewsSound(f, Notes(f, treasure, miners, acts).base, Finders(f, treasure, miners, acts),
                     Run(f, treasure, miners, acts).jobs[i][k]);
  }
}
