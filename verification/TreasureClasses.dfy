/** The boss's configuration and a miner's state as the objects the programs update in
    place, each method against the step it takes. */
module TreasureClasses {
  import opened Bytes
  import opened Md5Context
  import opened MinerSearch
  import opened TreasureHunt

  class ServerConfig {
    const f: Hasher
    const treasure: seq<Byte>
    var minePtr: nat
    var nTreasureTmp: nat
    var isDone: bool
    var nTreasure: nat
    var mdContext: Context
    var append: seq<Byte>
    var hash: string
    var winName: nat

    ghost function View(): Boss
      reads this
    {
      Boss(treasure, minePtr, nTreasureTmp, isDone, nTreasure, mdContext, append, hash, winName)
    }

    constructor (f: Hasher, treasure: seq<Byte>, miners: nat)
      ensures this.f == f && View() == NewHunt(treasure, miners).boss
    {
      this.f, this.treasure := f, treasure;
      minePtr, nTreasureTmp, isDone, nTreasure := 0, 0, false, 0;
      mdContext, append, hash, winName := FRESH, [], "", 0;
    }

    method Score()
      modifies this`hash, this`nTreasureTmp
      ensures View() == Scored(old(View()), f.hash(mdContext))
    {
      hide LeadingZeros;
      var tmp, printed := TreasureCount(f.hash(mdContext), nTreasure, hash);
      hash := printed;
      if tmp == nTreasureTmp + 1 {
        nTreasureTmp := tmp;
      }
    }

    // The next packet of the treasure.
    method LoadPacket()
      requires minePtr < |treasure|
      modifies this
      ensures View() == PacketLoaded(f, old(View()))
    {
      hide Scored;
      var packet := PacketSize(|treasure|);
      var size := if minePtr + packet > |treasure| then |treasure| - minePtr else packet;
      mdContext := f.absorb(mdContext, treasure[minePtr..minePtr + size]);
      minePtr := minePtr + size;
      Score();
    }

    // MD5 in boss.cpp, and the reset of mine_ptr that follows it in the main loop.
    method Load()
      requires minePtr <= |treasure|
      modifies this
      ensures View() == Loaded(f, old(View()))
    {
      if minePtr != |treasure| {
        LoadPacket();
      } else {
        nTreasure := nTreasureTmp;
        isDone := true;
        hash := f.hash(mdContext);
        minePtr := 0;
      }
    }

    method HandleTreasure(r: Report) returns (taken: bool)
      modifies this
      ensures taken == IsNext(old(View()), r)
      ensures View() == if taken then Accepted(old(View()), r) else old(View())
    {
      if r.level != nTreasure + 1 {
        return false;
      }
      nTreasure := r.level;
      mdContext := r.ctx;
      winName := r.name;
      append := append + r.append;
      hash := r.hash;
      return true;
    }
  }

  class Worker {
    const f: Hasher
    const name: nat
    const mine: Mine
    var work: bool
    var nTreasure: nat
    var mdContext: Context
    var start: int
    var startTmp: int
    var end: int

    ghost predicate Valid()
      reads this, mine
    {
      mine.mineSize <= mine.mine.Length
    }

    ghost function View(): Miner
      requires Valid()
      reads this, mine, mine.mine
    {
      Miner(work, nTreasure, mdContext, Search(start, end, startTmp, mine.Contents()))
    }

    constructor (f: Hasher, name: nat, capacity: nat)
      ensures Valid() && fresh(mine) && fresh(mine.mine) && mine.mine.Length == capacity
      ensures this.f == f && this.name == name && View() == Miner(false, 0, FRESH, Search(0, 0, 0, []))
    {
      this.f, this.name := f, name;
      mine := new Mine(capacity);
      work, nTreasure, mdContext := false, 0, FRESH;
      start, startTmp, end := 0, 0, 0;
    }

    method Receive(job: Job)
      requires Valid()
      modifies this, mine
      ensures Valid() && View() == Received(old(View()), job)
    {
      match job
      case Start(ctx, level, from, to) =>
        work, mdContext, nTreasure, start, end := true, ctx, level, from, to;
      case NewBest(ctx, level, _, _) =>
        startTmp, end, nTreasure, work := 0, 0, 0, false;
        mine.mineSize := 0;
        work, mdContext, nTreasure := true, ctx, level;
      case Status =>
    }

    // The first half of a turn: the next string to hash.
    method NextCandidate() returns (candidate: seq<Byte>)
      requires Valid() && mine.mineSize + 2 <= mine.mine.Length
      modifies this`startTmp, mine, mine.mine
      ensures Valid() && |candidate| <= mine.mine.Length
      ensures candidate == Candidate(old(View()).search)
      ensures View() == old(View()).(search := Tried(old(View()).search))
    {
      hide Successor;
      ghost var was := View();
      if startTmp > end {
        startTmp := start;
        SuccessorRaisesRankByOne(mine.Contents());
        mine.Advance();
      }
      assert View().search == Prepared(was.search);
      var byte: Byte := startTmp % 256;
      startTmp := startTmp + 1;
      candidate := mine.mine[..mine.mineSize] + [byte];
    }

    // One turn of the search loop, as long as the buffer has room for it.
    method Turn() returns (found: bool, report: Report)
      requires Valid() && work && mine.mineSize + 2 <= mine.mine.Length
      modifies this, mine, mine.mine
      ensures Valid() && View() == AfterTry(f, old(View()))
      ensures found == Finds(f, old(View()))
      ensures found ==> report == Told(f, old(View()), name)
    {
      hide LeadingZeros, Candidate, Tried;
      var candidate := NextCandidate();
      var tmpContext := f.absorb(mdContext, candidate);
      var workingHash := f.hash(tmpContext);
      found := ExactlyOneMore(workingHash, nTreasure + 1);
      report := Report(tmpContext, nTreasure + 1, name, candidate, workingHash);
      if found {
        mdContext := tmpContext;
        mine.Store(candidate);
        work := false;
      }
    }
  }

  // The test a miner makes on each hash: n zeros and then something else.
  method ExactlyOneMore(hash: string, n: nat) returns (found: bool)
    requires |hash| == 32 && n > 0
    ensures found <==> LeadingZeros(hash) == n
  {
    var ptr := 0;
    while ptr < 32 && hash[ptr] == '0'
      invariant ptr <= 32 && forall k :: 0 <= k < ptr ==> hash[k] == '0'
      invariant ptr == n ==> ptr < 32 && hash[ptr] == '0'
    {
      ptr := ptr + 1;
      // past the last digit comes the terminating NUL, which is not '0' either
      if ptr == n && (ptr == 32 || hash[ptr] != '0') {
        LeadingZerosIs(hash, ptr);
        return true;
      }
    }
    LeadingZerosIs(hash, ptr);
    return false;
  }
}
