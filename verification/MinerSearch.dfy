/** How a miner enumerates candidates: the carry counter over the mine buffer, the byte
    range it walks for each prefix, and which strings that reaches. */
module MinerSearch {
  import opened Bytes

  // ---------------------------------------------------------------- the counter

  // The next string in length-then-lexicographic order.
  function Successor(s: seq<Byte>): (r: seq<Byte>) {
    if |s| == 0 then [0]
    else if s[|s| - 1] == 255 then Successor(s[..|s| - 1]) + [0]
    else s[..|s| - 1] + [s[|s| - 1] + 1]
  }

  // Bijective base-256: the position of s in that order, the empty string being 0.
  function Rank(s: seq<Byte>): nat {
    if |s| == 0 then 0 else 256 * Rank(s[..|s| - 1]) + s[|s| - 1] + 1
  }

  lemma {:induction false} SuccessorRaisesRankByOne(s: seq<Byte>)
    ensures Rank(Successor(s)) == Rank(s) + 1
    ensures |s| <= |Successor(s)| <= |s| + 1
  {
    if |s| == 0 {
      assert [0][..0] == [];
    } else {
      var front := s[..|s| - 1];
      if s[|s| - 1] == 255 {
        SuccessorRaisesRankByOne(front);
        assert (Successor(front) + [0])[..|Successor(front)|] == Successor(front);
      } else {
        assert (front + [s[|s| - 1] + 1])[..|front|] == front;
      }
    }
  }

  // Every string has its own rank, so counting up misses none and repeats none.
  lemma {:induction false} RankIsInjective(s: seq<Byte>, t: seq<Byte>)
    requires Rank(s) == Rank(t)
    ensures s == t
  {
    if |s| == 0 || |t| == 0 {
    } else {
      RankIsInjective(s[..|s| - 1], t[..|t| - 1]);
      assert s == s[..|s| - 1] + [s[|s| - 1]] && t == t[..|t| - 1] + [t[|t| - 1]];
    }
  }

  function Zeros(n: nat): (z: seq<Byte>)
    ensures |z| == n
  {
    seq(n, _ => 0)
  }

  lemma SuccessorCases(head: seq<Byte>, n: nat)
    ensures head == [] ==> Successor(head) + Zeros(n) == Zeros(n + 1)
    ensures head != [] && head[|head| - 1] == 255 ==>
      Successor(head) + Zeros(n) == Successor(head[..|head| - 1]) + Zeros(n + 1)
    ensures head != [] && head[|head| - 1] != 255 ==>
      Successor(head) + Zeros(n) == head[..|head| - 1] + [head[|head| - 1] + 1] + Zeros(n)
  {
    assert Zeros(n + 1) == [0] + Zeros(n);
  }

  // The mine buffer and how much of it is in use.
  class Mine {
    const mine: array<Byte>
    var mineSize: nat

    ghost function Contents(): seq<Byte>
      reads this, mine
      requires mineSize <= mine.Length
    {
      mine[..mineSize]
    }

    constructor (capacity: nat)
      ensures fresh(mine) && mine.Length == capacity && mineSize == 0
      ensures Contents() == []
    {
      mine := new Byte[capacity](_ => 0);
      mineSize := 0;
    }

    // All bytes have wrapped: one more zero.
    method Grow()
      requires mineSize < mine.Length && forall k :: 0 <= k < mineSize ==> mine[k] == 0
      modifies this`mineSize, mine
      ensures mineSize == old(mineSize) + 1 && Contents() == Zeros(mineSize)
    {
      mine[0] := 0;
      // memcpy(mine + 1, mine, mineSize)
      forall k | 0 <= k < mineSize {
        mine[k + 1] := mine[k];
      }
      mineSize := mineSize + 1;
      assert forall k :: 0 <= k < mineSize ==> mine[k] == 0;
    }

    // The recursion of mining: everything from ptr on has already wrapped from 255 to 0.
    method Mining(ptr: nat)
      requires ptr <= mineSize < mine.Length
      requires forall k :: ptr <= k < mineSize ==> mine[k] == 0
      modifies this`mineSize, mine
      ensures mineSize <= mine.Length
      ensures Contents() == Successor(old(mine[..ptr])) + Zeros(old(mineSize) - ptr)
    {
      ghost var head, n := mine[..ptr], mineSize - ptr;
      SuccessorCases(head, n);
      hide Successor;
      if ptr == 0 {
        Grow();
      } else if mine[ptr - 1] == 255 {
        mine[ptr - 1] := 0;
        assert mine[..ptr - 1] == head[..ptr - 1];
        Mining(ptr - 1);
      } else {
        mine[ptr - 1] := mine[ptr - 1] + 1;
        assert mine[ptr..mineSize] == Zeros(n);
        assert Contents() == head[..ptr - 1] + [head[ptr - 1] + 1] + mine[ptr..mineSize];
      }
    }

    method Advance()
      requires mineSize < mine.Length
      modifies this`mineSize, mine
      ensures mineSize <= mine.Length
      ensures Contents() == Successor(old(Contents()))
    {
      Mining(mineSize);
      assert Zeros(0) == [];
    }

    // memcpy of a candidate back into the buffer.
    method Store(candidate: seq<Byte>)
      requires |candidate| <= mine.Length
      modifies this`mineSize, mine
      ensures mineSize <= mine.Length && Contents() == candidate
    {
      forall k | 0 <= k < |candidate| {
        mine[k] := candidate[k];
      }
      mineSize := |candidate|;
    }
  }

  // ---------------------------------------------------------------- the search loop

  // start_tmp runs from start to end for every prefix; the first job leaves it at 0.
  datatype Search = Search(start: int, end: int, startTmp: int, mine: seq<Byte>)

  function Prepared(s: Search): Search {
    if s.startTmp > s.end then s.(startTmp := s.start, mine := Successor(s.mine)) else s
  }

  // The string hashed by one turn of the loop; the byte is start_tmp cut to 8 bits.
  function Candidate(s: Search): seq<Byte> {
    Prepared(s).mine + [Prepared(s).startTmp % 256]
  }

  function Tried(s: Search): Search {
    Prepared(s).(startTmp := Prepared(s).startTmp + 1)
  }

  function After(s: Search, t: nat): Search {
    if t == 0 then s else Tried(After(s, t - 1))
  }

  function FirstJob(start: int, end: int): Search {
    Search(start, end, 0, [])
  }

  // Up to turn t the buffer never holds more than n bytes.
  ghost predicate FitsUntil(s: Search, t: nat, n: nat) {
    forall u: nat :: u <= t ==> |Prepared(After(s, u)).mine| <= n
  }

  // w is hashed while the buffer holds no more than what comes before its last byte.
  ghost predicate TriedAt(s: Search, w: seq<Byte>, t: nat) {
    Candidate(After(s, t)) == w && |w| > 0 && FitsUntil(s, t, |w| - 1)
  }

  ghost predicate Tries(s: Search, w: seq<Byte>) {
    exists t: nat :: TriedAt(s, w, t)
  }

  lemma {:induction false} AfterAfter(s: Search, t: nat, u: nat)
    ensures After(After(s, t), u) == After(s, t + u)
  {
    hide Successor;
    if u > 0 {
      AfterAfter(s, t, u - 1);
    }
  }

  lemma {:induction false} WalksThroughBytes(s: Search, k: nat)
    requires s.startTmp + k <= s.end + 1
    ensures After(s, k) == s.(startTmp := s.startTmp + k)
  {
    if k > 0 {
      WalksThroughBytes(s, k - 1);
    }
  }

  // The r-th string of the order.
  function Nth(r: nat): seq<Byte> {
    if r == 0 then [] else Successor(Nth(r - 1))
  }

  lemma {:induction false} RankOfNth(r: nat)
    ensures Rank(Nth(r)) == r
  {
    hide Successor;
    if r > 0 {
      hide Rank;
      RankOfNth(r - 1);
      SuccessorRaisesRankByOne(Nth(r - 1));
    }
  }

  lemma EveryStringIsNth(w: seq<Byte>)
    ensures Nth(Rank(w)) == w
  {
    RankOfNth(Rank(w));
    RankIsInjective(Nth(Rank(w)), w);
  }

  // How many strings are tried before the r-th prefix comes up.
  function RoundStart(start: nat, end: nat, r: nat): nat
    requires start <= end
  {
    if r == 0 then 0 else if r == 1 then end + 1 else RoundStart(start, end, r - 1) + (end - start + 1)
  }

  lemma {:induction false} AtRoundStart(start: nat, end: nat, r: nat)
    requires start <= end <= 255
    ensures After(FirstJob(start, end), RoundStart(start, end, r)) ==
            if r == 0 then FirstJob(start, end) else Search(start, end, end + 1, Nth(r - 1))
  {
    hide Successor, After;
    var s := FirstJob(start, end);
    if r == 0 {
      NoTries(s);
    } else if r == 1 {
      WalksThroughBytes(s, end + 1);
    } else {
      AtRoundStart(start, end, r - 1);
      RoundPasses(start, end, Nth(r - 2));
      AfterAfter(s, RoundStart(start, end, r - 1), end - start + 1);
    }
  }

  lemma NoTries(s: Search)
    ensures After(s, 0) == s
  {
  }

  lemma OneTry(s: Search)
    ensures After(s, 1) == Tried(s)
  {
    assert After(s, 1) == Tried(After(s, 0));
  }

  lemma RoundPasses(start: nat, end: nat, mine: seq<Byte>)
    requires start <= end
    ensures After(Search(start, end, end + 1, mine), end - start + 1) == Search(start, end, end + 1, Successor(mine))
  {
    hide Successor, After;
    var begun := Search(start, end, end + 1, mine);
    OneTry(begun);
    WalksThroughBytes(Tried(begun), end - start);
    AfterAfter(begun, 1, end - start);
  }

  // The prefix only grows, so a candidate comes up before any prefix longer than its own.
  lemma {:induction false} PrefixesNeverShrink(s: Search, t: nat, u: nat)
    requires t <= u
    ensures |After(s, t).mine| <= |After(s, u).mine|
  {
    if t < u {
      PrefixesNeverShrink(s, t, u - 1);
      SuccessorRaisesRankByOne(After(s, u - 1).mine);
    }
  }

  lemma TurnLeavesPrefix(s: Search, u: nat)
    ensures After(s, u + 1).mine == Prepared(After(s, u)).mine
  {
    hide Prepared;
  }

  // So a candidate is tried before the buffer grows beyond its own prefix.
  lemma CandidateIsTried(s: Search, w: seq<Byte>, t: nat)
    requires Candidate(After(s, t)) == w
    ensures |w| > 0 && TriedAt(s, w, t)
  {
    hide After, Prepared;
    forall u: nat | u <= t ensures |Prepared(After(s, u)).mine| <= |w| - 1 {
      TurnLeavesPrefix(s, u);
      TurnLeavesPrefix(s, t);
      PrefixesNeverShrink(s, u + 1, t + 1);
    }
  }

  lemma FirstRoundTries(start: nat, end: nat, b: Byte)
    requires start <= end <= 255 && b <= end
    ensures Tries(FirstJob(start, end), [b])
  {
    hide Successor, After, Candidate, TriedAt;
    WalksThroughBytes(FirstJob(start, end), b);
    SingleByte(FirstJob(start, end).(startTmp := b));
    CandidateIsTried(FirstJob(start, end), [b], b);
  }

  lemma SingleByte(s: Search)
    requires 0 <= s.startTmp <= s.end <= 255 && s.mine == []
    ensures Candidate(s) == [s.startTmp]
  {
    hide Successor;
  }

  lemma StillInRange(s: Search, k: nat)
    requires 0 <= s.startTmp && s.startTmp + k <= s.end <= 255
    ensures Candidate(After(s, k)) == s.mine + [s.startTmp + k]
  {
    hide Successor, After;
    WalksThroughBytes(s, k);
  }

  lemma AfterOneMore(s: Search, k: nat)
    ensures After(s, k + 1) == After(Tried(s), k)
  {
    hide Successor, Prepared, After;
    OneTry(s);
    AfterAfter(s, 1, k);
  }

  lemma OfferedLater(begun: Search, next: Search, b: Byte)
    requires begun.start < b <= begun.end <= 255 && 0 <= begun.start
    requires Tried(begun) == next && next.startTmp == begun.start + 1 && next.end == begun.end
    ensures Candidate(After(begun, b - begun.start)) == next.mine + [b]
  {
    hide Successor, After, Tried, Candidate;
    AfterOneMore(begun, b - begun.start - 1);
    StillInRange(next, b - begun.start - 1);
  }

  lemma OfferedWithin(begun: Search, prefix: seq<Byte>, b: Byte)
    requires begun.start <= b <= begun.end <= 255 && 0 <= begun.start
    requires begun.startTmp > begun.end && Successor(begun.mine) == prefix
    ensures Candidate(After(begun, b - begun.start)) == prefix + [b]
  {
    hide Successor, After;
    if b == begun.start {
      NoTries(begun);
    } else {
      OfferedLater(begun, Tried(begun), b);
    }
  }

  lemma LaterRoundTries(start: nat, end: nat, r: nat, b: Byte)
    requires start <= b <= end <= 255 && r > 0
    ensures Tries(FirstJob(start, end), Nth(r) + [b])
  {
    hide Successor, Prepared, RoundStart, Candidate, After;
    var s, t := FirstJob(start, end), RoundStart(start, end, r);
    AtRoundStart(start, end, r);
    OfferedWithin(After(s, t), Nth(r), b);
    AfterAfter(s, t, b - start);
    CandidateIsTried(s, Nth(r) + [b], t + (b - start));
  }

  // A miner tries every string whose last byte is in its range, and before the first
  // round is over also the single bytes below it.
  lemma TriesItsRange(start: nat, end: nat, w: seq<Byte>)
    requires start <= end <= 255 && |w| > 0
    requires w[|w| - 1] <= end && (|w| == 1 || start <= w[|w| - 1])
    ensures Tries(FirstJob(start, end), w)
  {
    var p, b := w[..|w| - 1], w[|w| - 1];
    assert w == p + [b];
    if |w| == 1 {
      FirstRoundTries(start, end, b);
    } else {
      EveryStringIsNth(p);
      LaterRoundTries(start, end, Rank(p), b);
    }
  }

  ghost predicate Within(s: Search, limit: int) {
    0 <= s.start <= limit <= 255 && s.end <= limit && 0 <= s.startTmp <= limit + 1
  }

  lemma TriedStaysWithin(s: Search, limit: int)
    requires Within(s, limit)
    ensures Within(Tried(s), limit) && Tried(s).start == s.start && Tried(s).end == s.end
    ensures Candidate(s) != [] && Candidate(s)[|Candidate(s)| - 1] <= limit
  {
    hide Successor;
  }

  lemma {:induction false} NeverBeyondRange(s: Search, t: nat, limit: int)
    requires Within(s, limit)
    ensures After(s, t).start == s.start && After(s, t).end == s.end && Within(After(s, t), limit)
    ensures Candidate(After(s, t)) != []
    ensures Candidate(After(s, t))[|Candidate(After(s, t))| - 1] <= limit
  {
    hide Tried, Candidate, Within;
    if t > 0 {
      NeverBeyondRange(s, t - 1, limit);
      TriedStaysWithin(After(s, t - 1), limit);
    }
    TriedStaysWithin(After(s, t), limit);
  }

  // Once there is a prefix, the byte after it starts from the range's start.
  ghost predicate AboveStart(s: Search) {
    s.mine != [] ==> s.startTmp > s.start
  }

  lemma {:induction false} StaysAboveStart(start: nat, end: nat, t: nat)
    requires start <= end <= 255
    ensures var s := After(FirstJob(start, end), t); AboveStart(s) && s.start == start && s.end == end
    ensures 0 <= After(FirstJob(start, end), t).startTmp <= end + 1
  {
    hide Successor;
    if t > 0 {
      StaysAboveStart(start, end, t - 1);
    }
  }

  lemma CandidateInRange(s: Search)
    requires AboveStart(s) && 0 <= s.start <= s.end <= 255 && 0 <= s.startTmp <= s.end + 1
    ensures var w := Candidate(s);
      && w != [] && w[|w| - 1] <= s.end && (|w| == 1 || s.start <= w[|w| - 1])
  {
    hide Successor;
  }

  // Exactly what a first job tries.
  lemma FirstJobTriesExactly(start: nat, end: nat, w: seq<Byte>)
    requires start <= end <= 255
    ensures Tries(FirstJob(start, end), w) <==>
            |w| > 0 && w[|w| - 1] <= end && (|w| == 1 || start <= w[|w| - 1])
  {
    hide After, Candidate;
    if Tries(FirstJob(start, end), w) {
      var t: nat :| TriedAt(FirstJob(start, end), w, t);
      StaysAboveStart(start, end, t);
      CandidateInRange(After(FirstJob(start, end), t));
    } else if |w| > 0 && w[|w| - 1] <= end && (|w| == 1 || start <= w[|w| - 1]) {
      TriesItsRange(start, end, w);
    }
  }

  // ---------------------------------------------------------------- dealing out the bytes

  datatype Range = Range(start: int, end: int)

  // The ranges of miners 0, 1, ... n-1 of num.
  function Ranges(num: nat, n: nat): (r: seq<Range>)
    requires num > 0
    ensures |r| == n
  {
    if n == 0 then []
    else
      var before := Ranges(num, n - 1);
      var start := if n == 1 then 0 else before[n - 2].end + 1;
      var range := start + (256 / num - 1);
      before + [Range(start, if range > 255 then 255 else range)]
  }

  method AssignJobs(num: nat) returns (jobs: seq<Range>)
    requires num > 0
    ensures jobs == Ranges(num, num)
  {
    var load := 256 / num - 1;
    var start := 0;
    jobs := [];
    var i := 0;
    while i < num
      invariant i <= num && jobs == Ranges(num, i)
      invariant start == if i == 0 then 0 else jobs[i - 1].end + 1
    {
      var range := start + load;
      if range > 255 {
        range := 255;
      }
      jobs := jobs + [Range(start, range)];
      start := range + 1;
      i := i + 1;
    }
  }

  lemma TimesGrows(m: nat, n: nat, l: nat)
    requires m <= n
    ensures m * l <= n * l
  {
  }

  lemma ShareFits(num: nat, i: nat)
    requires 0 < num && i < num
    ensures (i + 1) * (256 / num) <= 256
    ensures 256 % num != 0 ==> (i + 1) * (256 / num) <= 255
  {
    var l := 256 / num;
    assert num * l + 256 % num == 256;
    TimesGrows(i + 1, num, l);
  }

  lemma {:induction false} RangesAreEqualShares(num: nat, n: nat, i: nat)
    requires 0 < num && i < n <= num
    ensures Ranges(num, n)[i] == Range(i * (256 / num), (i + 1) * (256 / num) - 1)
  {
    ShareFits(num, n - 1);
    if i < n - 1 {
      RangesAreEqualShares(num, n - 1, i);
    } else if n > 1 {
      RangesAreEqualShares(num, n - 1, n - 2);
    }
  }

  // Some miner of num tries w as part of its first job.
  ghost predicate SomeoneTries(num: nat, w: seq<Byte>)
    requires num > 0
  {
    exists i :: 0 <= i < num && Tries(FirstJob(Ranges(num, num)[i].start, Ranges(num, num)[i].end), w)
  }

  lemma BytesFallIntoShares(num: nat, l: nat, b: nat)
    requires num * l == 256 && b < 256
    ensures l > 0 && b / l < num && b / l * l <= b < (b / l + 1) * l
  {
    assert l != 0;
    var i := b / l;
    assert b == i * l + b % l;
    assert (num - i) * l == num * l - i * l;
    assert (num - i) * l > 0;
  }

  lemma ShareTries(num: nat, i: nat, w: seq<Byte>)
    requires 0 < num && i < num && |w| > 0
    requires i * (256 / num) <= w[|w| - 1] < (i + 1) * (256 / num)
    ensures SomeoneTries(num, w)
  {
    hide Successor, After, Candidate, Ranges;
    ShareFits(num, i);
    RangesAreEqualShares(num, num, i);
    TriesItsRange(i * (256 / num), (i + 1) * (256 / num) - 1, w);
  }

  lemma EvenSplitCoversAll(num: nat, w: seq<Byte>)
    requires num > 0 && 256 % num == 0 && |w| > 0
    ensures SomeoneTries(num, w)
  {
    BytesFallIntoShares(num, 256 / num, w[|w| - 1]);
    ShareTries(num, w[|w| - 1] / (256 / num), w);
  }

  lemma SharesAreOrdered(num: nat, i: nat)
    requires 0 < num && i < num && 256 % num != 0
    ensures 0 <= i * (256 / num) <= 254
    ensures -1 <= (i + 1) * (256 / num) - 1 <= 254
  {
    ShareFits(num, i);
    var l := 256 / num;
    assert (i + 1) * l == i * l + l;
    assert 0 <= i * l;
  }

  lemma UnevenSplitMissesLastByte(num: nat)
    requires num > 0 && 256 % num != 0
    ensures !SomeoneTries(num, [255])
  {
    forall i, t: nat | 0 <= i < num
      ensures Candidate(After(FirstJob(Ranges(num, num)[i].start, Ranges(num, num)[i].end), t)) != [255]
    {
      RangesAreEqualShares(num, num, i);
      SharesAreOrdered(num, i);
      NeverBeyondRange(FirstJob(i * (256 / num), (i + 1) * (256 / num) - 1), t, 254);
    }
  }

  // As long as nothing is found, the miners together try every non-empty string whose
  // prefix fits a buffer, before the buffer has to hold more, exactly when their number
  // divides 256.
  lemma FirstJobsCoverAllIff(num: nat, capacity: nat)
    requires num > 0
    ensures (forall w: seq<Byte> :: 0 < |w| <= capacity + 1 ==> SomeoneTries(num, w)) <==> 256 % num == 0
  {
    if 256 % num == 0 {
      forall w: seq<Byte> | 0 < |w| <= capacity + 1 ensures SomeoneTries(num, w) {
        EvenSplitCoversAll(num, w);
      }
    } else {
      UnevenSplitMissesLastByte(num);
      assert 0 < |[255 as Byte]| <= capacity + 1;
    }
  }

  // Miners i and j of num both try w.
  ghost predicate BothTry(num: nat, i: nat, j: nat, w: seq<Byte>)
    requires num > 0 && i < num && j < num
  {
    && Tries(FirstJob(Ranges(num, num)[i].start, Ranges(num, num)[i].end), w)
    && Tries(FirstJob(Ranges(num, num)[j].start, Ranges(num, num)[j].end), w)
  }

  lemma SharesDoNotMeet(num: nat, i: nat, j: nat, w: seq<Byte>)
    requires 0 < num <= 256 && i < j < num && |w| > 1
    ensures !BothTry(num, i, j, w)
  {
    hide Tries, Ranges;
    var l := 256 / num;
    ShareFits(num, i);
    ShareFits(num, j);
    RangesAreEqualShares(num, num, i);
    RangesAreEqualShares(num, num, j);
    TimesGrows(i + 1, j, l);
    ShareIsNotEmpty(num, i);
    ShareIsNotEmpty(num, j);
    FirstJobTriesExactly(i * l, (i + 1) * l - 1, w);
    FirstJobTriesExactly(j * l, (j + 1) * l - 1, w);
  }

  lemma ShareIsNotEmpty(num: nat, i: nat)
    requires 0 < num <= 256
    ensures 256 / num > 0 && 0 <= i * (256 / num) <= (i + 1) * (256 / num) - 1
  {
    var l := 256 / num;
    assert num * l + 256 % num == 256;
    assert (i + 1) * l == i * l + l;
    TimesGrows(0, i, l);
  }

  lemma TooManyMinersMeet(num: nat)
    requires num > 256
    ensures BothTry(num, 0, 1, [0, 0])
  {
    RangesAreEqualShares(num, num, 0);
    RangesAreEqualShares(num, num, 1);
    NoTries(FirstJob(0, -1));
    assert Candidate(FirstJob(0, -1)) == [0] + [0];
    CandidateIsTried(FirstJob(0, -1), [0, 0], 0);
  }

  // No two miners try the same string of more than one byte exactly when there are at
  // most 256 of them.
  lemma NoStringTwiceIff(num: nat)
    requires num > 0
    ensures (forall i: nat, j: nat, w: seq<Byte> :: i < j < num && |w| > 1 ==> !BothTry(num, i, j, w)) <==> num <= 256
  {
    hide BothTry;
    if num <= 256 {
      forall i: nat, j: nat, w: seq<Byte> | i < j < num && |w| > 1 ensures !BothTry(num, i, j, w) {
        SharesDoNotMeet(num, i, j, w);
      }
    } else {
      TooManyMinersMeet(num);
      assert |[0 as Byte, 0]| > 1;
    }
  }
}
