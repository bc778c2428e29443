/** What the boss's level is once the treasure is loaded. The boss hashes the treasure up to
    each packet end and raises its level whenever such a prefix scores exactly one more. */
module TreasureLoading {
  import opened Bytes
  import opened Md5Spec
  import opened Md5Context
  import opened MinerSearch
  import opened TreasureHunt
  import opened TreasureProofs

  // How many bytes k whole packets hold.
  function Packets(size: nat, k: nat): nat {
    k * PacketSize(size)
  }

  // Packets end where a number of whole ones does and at the end of the treasure.
  ghost predicate IsEnd(size: nat, e: nat) {
    0 < e <= size && (e == size || exists k: nat :: e == Packets(size, k))
  }

  ghost function Score(f: Hasher, bytes: seq<Byte>): nat {
    LeadingZeros(f.hash(f.absorb(FRESH, bytes)))
  }

  ghost predicate IsRung(f: Hasher, treasure: seq<Byte>, e: nat, score: nat) {
    IsEnd(|treasure|, e) && Score(f, treasure[..e]) == score
  }

  // Packet ends, one after the other, at which the treasure so far scores 1, 2, 3 and so on.
  ghost predicate IsLadder(f: Hasher, treasure: seq<Byte>, ends: seq<nat>, upTo: nat) {
    && (forall i :: 0 <= i < |ends| ==> ends[i] <= upTo && IsRung(f, treasure, ends[i], i + 1))
    && (forall i, j :: 0 <= i < j < |ends| ==> ends[i] < ends[j])
  }

  // How many rungs the longest ladder over the packet ends so far has.
  ghost predicate IsHeight(f: Hasher, treasure: seq<Byte>, upTo: nat, height: nat) {
    && (exists ends :: IsLadder(f, treasure, ends, upTo) && |ends| == height)
    && (forall ends :: IsLadder(f, treasure, ends, upTo) ==> |ends| <= height)
  }

  // The hash of the last prefix so far that ends with a packet and scores anything, if any.
  ghost predicate ShowsLastScore(f: Hasher, boss: Boss)
    requires boss.minePtr <= |boss.treasure|
  {
    if boss.hash == "" then
      forall e: nat :: IsEnd(|boss.treasure|, e) && e <= boss.minePtr ==> Score(f, boss.treasure[..e]) == 0
    else
      exists e: nat :: IsLastScore(f, boss.treasure, boss.minePtr, e)
                       && boss.hash == f.hash(f.absorb(FRESH, boss.treasure[..e]))
  }

  ghost predicate IsLastScore(f: Hasher, treasure: seq<Byte>, upTo: nat, e: nat)
    requires upTo <= |treasure|
  {
    && IsEnd(|treasure|, e) && e <= upTo && Score(f, treasure[..e]) > 0
    && forall d: nat :: IsEnd(|treasure|, d) && e < d <= upTo ==> Score(f, treasure[..d]) == 0
  }

  // While the boss loads, its level is the height so far.
  ghost predicate Climbing(f: Hasher, boss: Boss) {
    && boss.minePtr <= |boss.treasure|
    && (boss.minePtr == 0 || IsEnd(|boss.treasure|, boss.minePtr))
    && IsHeight(f, boss.treasure, boss.minePtr, boss.loadLevel)
  }

  // ---------------------------------------------------------------- one packet

  lemma OnePacketMore(size: nat, k: nat)
    ensures Packets(size, k + 1) == Packets(size, k) + PacketSize(size)
  {
  }

  lemma {:induction false} PacketsGrow(size: nat, k: nat, m: nat)
    requires k <= m
    ensures Packets(size, k) <= Packets(size, m)
    decreases m - k
  {
    hide Packets, PacketSize;
    if k < m {
      OnePacketMore(size, k);
      PacketsGrow(size, k + 1, m);
    }
  }

  // A packet ends at the next packet end.
  lemma NextEnd(size: nat, from: nat)
    requires from < size && (from == 0 || IsEnd(size, from))
    ensures IsEnd(size, PacketEnd(from, size))
    ensures forall e :: IsEnd(size, e) && from < e ==> PacketEnd(from, size) <= e
  {
    hide Packets, PacketSize;
    var q: nat :| from == Packets(size, q) by {
      if from == 0 {
        FirstIsEmpty(size);
      }
    }
    OnePacketMore(size, q);
    forall e | IsEnd(size, e) && from < e ensures PacketEnd(from, size) <= e {
      if e != size {
        var k: nat :| e == Packets(size, k);
        if k <= q {
          PacketsGrow(size, k, q);
          assert false;
        }
        PacketsGrow(size, q + 1, k);
      }
    }
  }

  lemma FirstIsEmpty(size: nat)
    ensures Packets(size, 0) == 0
  {
  }

  // One more packet end adds a rung exactly if it scores one more than the height.
  lemma OneEndMore(f: Hasher, treasure: seq<Byte>, from: nat, to: nat, height: nat)
    requires IsHeight(f, treasure, from, height) && from < to && IsEnd(|treasure|, to)
    requires forall e :: IsEnd(|treasure|, e) && from < e ==> to <= e
    ensures IsHeight(f, treasure, to, if Score(f, treasure[..to]) == height + 1 then height + 1 else height)
  {
    hide Score, Packets;
    var ends :| IsLadder(f, treasure, ends, from) && |ends| == height;
    assert IsLadder(f, treasure, ends, to);
    if Score(f, treasure[..to]) == height + 1 {
      assert IsLadder(f, treasure, ends + [to], to);
    }
    forall longer | IsLadder(f, treasure, longer, to)
      ensures |longer| <= if Score(f, treasure[..to]) == height + 1 then height + 1 else height
    {
      if longer != [] {
        LastRung(f, treasure, longer, from, to);
      }
    }
  }

  lemma LastRung(f: Hasher, treasure: seq<Byte>, ends: seq<nat>, from: nat, to: nat)
    requires IsLadder(f, treasure, ends, to) && ends != []
    requires forall e :: IsEnd(|treasure|, e) && from < e ==> to <= e
    ensures IsLadder(f, treasure, ends[..|ends| - 1], from)
    ensures IsLadder(f, treasure, ends, from) || Score(f, treasure[..to]) == |ends|
  {
    hide Score, IsEnd;
    var last := |ends| - 1;
    assert IsRung(f, treasure, ends[last], last + 1);
    forall i | 0 <= i < last ensures ends[i] <= from {
      assert IsRung(f, treasure, ends[i], i + 1) && ends[i] < ends[last];
    }
  }

  // ---------------------------------------------------------------- every run

  lemma LoadingClimbs(f: Hasher, boss: Boss, h: Record)
    requires Streams(f) && BossSound(f, boss, h) && !boss.isDone && boss.minePtr < |boss.treasure|
    requires Climbing(f, boss) && ShowsLastScore(f, boss)
    ensures Climbing(f, Loaded(f, boss)) && ShowsLastScore(f, Loaded(f, boss))
  {
    hide IsHeight, IsEnd, LeadingZeros, ShowsLastScore, PacketEnd, Streams;
    var from, to := boss.minePtr, PacketEnd(boss.minePtr, |boss.treasure|);
    NextEnd(|boss.treasure|, from);
    OneEndMore(f, boss.treasure, from, to, boss.loadLevel);
    AbsorbTwice(f, FRESH, boss.treasure[..from], boss.treasure[from..to]);
    assert boss.treasure[..to] == boss.treasure[..from] + boss.treasure[from..to];
    LastScoreAfter(f, boss);
  }

  // One more packet end is the last that scores, or the last one before it still is.
  lemma LastScoreAfter(f: Hasher, boss: Boss)
    requires boss.minePtr < |boss.treasure| && ShowsLastScore(f, boss) && boss.nTreasure == 0
    requires var to := PacketEnd(boss.minePtr, |boss.treasure|);
      && Loaded(f, boss).minePtr == to && IsEnd(|boss.treasure|, to)
      && f.absorb(boss.ctx, boss.treasure[boss.minePtr..to]) == f.absorb(FRESH, boss.treasure[..to])
    requires forall e :: IsEnd(|boss.treasure|, e) && boss.minePtr < e ==> PacketEnd(boss.minePtr, |boss.treasure|) <= e
    ensures ShowsLastScore(f, Loaded(f, boss))
  {
    hide IsEnd, LeadingZeros, PacketEnd;
    var boss', to := Loaded(f, boss), PacketEnd(boss.minePtr, |boss.treasure|);
    if Score(f, boss.treasure[..to]) > 0 {
      assert IsLastScore(f, boss.treasure, to, to);
    } else if boss.hash != "" {
      var e: nat :| IsLastScore(f, boss.treasure, boss.minePtr, e)
                    && boss.hash == f.hash(f.absorb(FRESH, boss.treasure[..e]));
      assert IsLastScore(f, boss.treasure, to, e);
    }
  }

  // The level noted when loading ended is the height of the whole treasure.
  ghost predicate LevelSound(f: Hasher, boss: Boss, h: Record) {
    if boss.isDone then IsHeight(f, boss.treasure, |boss.treasure|, h.base) && boss.minePtr == 0
    else Climbing(f, boss) && ShowsLastScore(f, boss)
  }

  lemma StepKeepsLevel(f: Hasher, s: Hunt, h: Record, a: Action)
    requires Streams(f) && Sound(f, s, h) && LevelSound(f, s.boss, h)
    ensures LevelSound(f, Step(f, s, a).boss, Noted(f, s, h, a))
  {
    hide IsHeight, IsEnd, LeadingZeros, MinersSound, Ranges, AfterTry, Finds, Told, Received, DumpMore, ShowsLastScore;
    if a == LoadStep && !s.boss.isDone && s.boss.minePtr < |s.boss.treasure| {
      LoadingClimbs(f, s.boss, h);
    } else if a.Collect? && Enabled(s, a) {
      OnlyTheDoneReport(f, s, h, a.i);
    }
  }

  lemma {:induction false} RunKeepsLevel(f: Hasher, treasure: seq<Byte>, miners: nat, acts: seq<Action>)
    requires Streams(f) && miners > 0
    ensures LevelSound(f, Run(f, treasure, miners, acts).boss, Notes(f, treasure, miners, acts))
  {
    hide Step, Noted, Sound;
    if acts == [] {
      NothingLoaded(f, treasure);
    } else {
      var front := acts[..|acts| - 1];
      RunKeepsLevel(f, treasure, miners, front);
      RunIsSound(f, treasure, miners, front);
      StepKeepsLevel(f, Run(f, treasure, miners, front), Notes(f, treasure, miners, front), acts[|acts| - 1]);
    }
  }

  lemma NothingLoaded(f: Hasher, treasure: seq<Byte>)
    ensures IsHeight(f, treasure, 0, 0)
    ensures ShowsLastScore(f, NewHunt(treasure, 1).boss)
  {
    hide Score;
    assert IsLadder(f, treasure, [], 0);
    forall ends | IsLadder(f, treasure, ends, 0) ensures ends == [] {
      if ends != [] {
        LadderNeedsAnEnd(f, treasure, ends, 0);
      }
    }
  }

  lemma LadderNeedsAnEnd(f: Hasher, treasure: seq<Byte>, ends: seq<nat>, upTo: nat)
    requires IsLadder(f, treasure, ends, upTo) && ends != []
    ensures upTo > 0
  {
    hide Score;
    assert IsRung(f, treasure, ends[0], 1);
  }

  // ---------------------------------------------------------------- what that means

  // The level at which the search starts is the length of the longest ladder: there are
  // packet ends that score 1 up to that level, one after the other, no ladder is longer, and
  // no packet end above one so long scores one more.
  lemma LoadedLevelIsLongestLadder(f: Hasher, treasure: seq<Byte>, miners: nat, acts: seq<Action>, ends: seq<nat>)
    requires Streams(f) && miners > 0 && Run(f, treasure, miners, acts).boss.isDone
    ensures IsHeight(f, treasure, |treasure|, Notes(f, treasure, miners, acts).base)
    ensures IsLadder(f, treasure, ends, |treasure|) && |ends| == Notes(f, treasure, miners, acts).base ==>
              NoRungAbove(f, treasure, ends, |ends| + 1)
  {
    hide Run, Notes, IsEnd, Score;
    RunKeepsLevel(f, treasure, miners, acts);
    if IsLadder(f, treasure, ends, |treasure|) && |ends| == Notes(f, treasure, miners, acts).base {
      if !NoRungAbove(f, treasure, ends, |ends| + 1) {
        RungAbove(f, treasure, ends);
        assert false;
      }
    }
  }

  ghost predicate NoRungAbove(f: Hasher, treasure: seq<Byte>, ends: seq<nat>, score: nat) {
    forall e :: IsRung(f, treasure, e, score) ==> ends != [] && e <= ends[|ends| - 1]
  }

  lemma RungAbove(f: Hasher, treasure: seq<Byte>, ends: seq<nat>)
    requires IsLadder(f, treasure, ends, |treasure|) && !NoRungAbove(f, treasure, ends, |ends| + 1)
    ensures exists longer :: IsLadder(f, treasure, longer, |treasure|) && |longer| == |ends| + 1
  {
    hide Packets, Score;
    var e :| IsRung(f, treasure, e, |ends| + 1) && (ends == [] || ends[|ends| - 1] < e);
    assert IsLadder(f, treasure, ends + [e], |treasure|);
  }

  // The announced hash has as many zeros as the level says once a find has been accepted.
  // Before that it is the hash of the treasure, which has them only if the treasure as a
  // whole scores that much.
  lemma HashShowsTheLevelIff(f: Hasher, treasure: seq<Byte>, miners: nat, acts: seq<Action>)
    requires Streams(f) && miners > 0 && Run(f, treasure, miners, acts).boss.isDone
    ensures var boss, h := Run(f, treasure, miners, acts).boss, Notes(f, treasure, miners, acts);
      LeadingZeros(boss.hash) == boss.nTreasure <==> h.finds != [] || Score(f, treasure) == h.base
  {
    hide Run, Notes, LeadingZeros;
    AcceptedFindsExtendTheBest(f, treasure, miners, acts);
    assert treasure + [] == treasure;
  }

  // Until loading is done the printed hash is that of the last prefix that scored anything,
  // if any did; once it is done, the boss is back at the start of the treasure.
  lemma PrintedWhileLoading(f: Hasher, treasure: seq<Byte>, miners: nat, acts: seq<Action>)
    requires Streams(f) && miners > 0
    ensures var boss := Run(f, treasure, miners, acts).boss;
      if boss.isDone then boss.minePtr == 0 else ShowsLastScore(f, boss)
  {
    RunKeepsLevel(f, treasure, miners, acts);
  }

  // ---------------------------------------------------------------- loading ends

  // Small treasures are read byte by byte, larger ones in about a million packets.
  lemma PacketSizeIs(size: nat)
    ensures size < 1000000 ==> PacketSize(size) == 1
    ensures size >= 1000000 ==> 1000000 * PacketSize(size) <= size < 1000000 * (PacketSize(size) + 1)
  {
  }

  lemma PacketsAreFew(size: nat, k: nat)
    requires Packets(size, k) < size
    ensures k < 2000000
  {
    hide PacketSize;
    PacketSizeIs(size);
    var p := PacketSize(size);
    if k >= 2000000 {
      TimesAtLeast(k, 2000000, p);
      assert false;
    }
  }

  lemma TimesAtLeast(k: nat, m: nat, p: nat)
    requires k >= m
    ensures k * p >= m * p
  {
  }

  // How often the boss went on with its loading.
  ghost function LoadSteps(f: Hasher, treasure: seq<Byte>, miners: nat, acts: seq<Action>): nat
    requires miners > 0
  {
    if acts == [] then 0
    else
      var front, last := acts[..|acts| - 1], acts[|acts| - 1];
      LoadSteps(f, treasure, miners, front)
      + if last == LoadStep && Enabled(Run(f, treasure, miners, front), last) then 1 else 0
  }

  // After k packets the boss stands at the end of the k-th, or of the treasure.
  ghost predicate LoadedSoFar(boss: Boss, k: nat) {
    var size := |boss.treasure|;
    if boss.isDone then k > 0 && (k > 1 ==> Packets(size, k - 2) < size)
    else boss.minePtr == (if Packets(size, k) < size then Packets(size, k) else size)
         && (k > 0 ==> Packets(size, k - 1) < size)
  }

  lemma StepLoads(f: Hasher, s: Hunt, a: Action, k: nat)
    requires Formed(s) && LoadedSoFar(s.boss, k)
    ensures LoadedSoFar(Step(f, s, a).boss, if a == LoadStep && Enabled(s, a) then k + 1 else k)
  {
    hide LeadingZeros, Ranges, AfterTry, Finds, Told, Received, DumpMore, Packets, PacketSize;
    if a == LoadStep {
      OnePacketMore(|s.boss.treasure|, k);
    }
  }

  lemma {:induction false} RunLoads(f: Hasher, treasure: seq<Byte>, miners: nat, acts: seq<Action>)
    requires miners > 0
    ensures LoadedSoFar(Run(f, treasure, miners, acts).boss, LoadSteps(f, treasure, miners, acts))
  {
    hide Step, Packets, LoadedSoFar;
    if acts == [] {
      NothingLoadedYet(treasure, miners);
    } else {
      var front := acts[..|acts| - 1];
      RunLoads(f, treasure, miners, front);
      StepLoads(f, Run(f, treasure, miners, front), acts[|acts| - 1], LoadSteps(f, treasure, miners, front));
    }
  }

  lemma NothingLoadedYet(treasure: seq<Byte>, miners: nat)
    ensures LoadedSoFar(NewHunt(treasure, miners).boss, 0)
  {
    FirstIsEmpty(|treasure|);
  }

  // However large the treasure, loading is done after at most 2000001 of the boss's steps.
  lemma LoadingIsBounded(f: Hasher, treasure: seq<Byte>, miners: nat, acts: seq<Action>)
    requires miners > 0
    ensures LoadSteps(f, treasure, miners, acts) <= 2000001
    ensures LoadSteps(f, treasure, miners, acts) > 2000000 ==> Run(f, treasure, miners, acts).boss.isDone
  {
    hide Packets, Run, LoadSteps;
    RunLoads(f, treasure, miners, acts);
    var k, size := LoadSteps(f, treasure, miners, acts), |treasure|;
    if Run(f, treasure, miners, acts).boss.isDone {
      if k > 1 {
        PacketsAreFew(size, k - 2);
      }
    } else if k > 0 {
      PacketsAreFew(size, k - 1);
    }
  }

  // ---------------------------------------------------------------- a level without its zeros

  // A hash that counts bytes and shows a zero after one of them.
  function CountingHasher(): Hasher {
    Hasher((c: Context, x: seq<Byte>) => c.(bits := c.bits + |x|),
           (c: Context) => if c.bits == 1 then ['0'] + seq(31, _ => 'f') else seq(32, _ => 'f'))
  }

  lemma CountingStreams()
    ensures Streams(CountingHasher())
  {
  }

  // The first of two bytes takes the boss to level 1, the second hides the zero, and the
  // boss announces a best hash of level 1 that starts with none.
  lemma LevelWithoutZeros(x: Byte, y: Byte, miners: nat)
    requires miners > 0
    ensures Streams(CountingHasher())
    ensures var boss := Run(CountingHasher(), [x, y], miners, [LoadStep, LoadStep, LoadStep]).boss;
      boss.isDone && boss.nTreasure == 1 && LeadingZeros(boss.hash) == 0
  {
    hide LeadingZeros;
    var f, treasure := CountingHasher(), [x, y];
    CountingStreams();
    assert [LoadStep, LoadStep, LoadStep][..2] == [LoadStep, LoadStep] && [LoadStep, LoadStep][..1] == [LoadStep];
    var zero := NewHunt(treasure, miners).boss;
    CountingScore(f.absorb(FRESH, [x]));
    CountingScore(f.absorb(f.absorb(FRESH, [x]), [y]));
    assert treasure[0..1] == [x] && treasure[1..2] == [y];
    var one := Loaded(f, zero);
    var two := Loaded(f, one);
    assert one.loadLevel == 1 && two.loadLevel == 1;
    assert Run(f, treasure, miners, []).boss == zero;
    assert Run(f, treasure, miners, [LoadStep]).boss == one;
    assert Run(f, treasure, miners, [LoadStep, LoadStep]).boss == two;
  }

  lemma CountingScore(c: Context)
    ensures LeadingZeros(CountingHasher().hash(c)) == if c.bits == 1 then 1 else 0
  {
    LeadingZerosIs(CountingHasher().hash(c), if c.bits == 1 then 1 else 0);
  }
}
