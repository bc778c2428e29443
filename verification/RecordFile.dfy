/** The record file as the C library shows it, a cursor in a sequence of characters, and
    the loop that reads commits from its end. */
module RecordFile {
  import opened CommitRecord

  datatype Whence = Current | End

  class Stream {
    var data: string
    var pos: nat

    constructor (data: string)
      ensures this.data == data && pos == 0
    {
      this.data, pos := data, 0;
    }

    // fseek: a target before the beginning is refused and the cursor stays.
    method Seek(offset: int, whence: Whence)
      modifies this`pos
      ensures var target := (if whence == Current then old(pos) else |data|) + offset;
        pos == if target < 0 then old(pos) else target
    {
      var target := (if whence == Current then pos else |data|) + offset;
      if target >= 0 {
        pos := target;
      }
    }

    // fread of one byte.
    method Read() returns (count: nat, byte: char)
      modifies this`pos
      ensures old(pos) < |data| ==> count == 1 && byte == data[old(pos)] && pos == old(pos) + 1
      ensures old(pos) >= |data| ==> count == 0 && pos == old(pos)
    {
      if pos < |data| {
        byte := data[pos];
        pos := pos + 1;
        count := 1;
      } else {
        count, byte := 0, '\0';
      }
    }

    // fwrite at the end of the file.
    method Append(text: string)
      modifies this
      ensures data == old(data) + text && pos == |data|
    {
      Seek(0, End);
      data := data + text;
      pos := |data|;
    }

    // Backwards to the last '#', collecting the bytes passed on the way. The cursor stays
    // inside the file, so that fread always has a byte to give.
    method CollectBack() returns (commitTmp: string)
      requires 0 < pos < |data| && HasHash(data[..pos + 1])
      modifies this`pos
      ensures var q := LastHash(old(data[..pos + 1]));
        && |commitTmp| == old(pos) - q + 1 && pos == (if q >= 2 then q - 2 else 0)
        && forall k :: 0 <= k < |commitTmp| ==> commitTmp[k] == old(data)[old(pos) - k]
    {
      hide LastHash;
      ghost var start, p := pos, pos;
      ghost var first :| 0 <= first <= start && data[..start + 1][first] == '#';
      commitTmp := "";
      var count, buffer := Read();
      while true
        invariant first <= p <= start < |data| && buffer == data[p] && pos == p + 1
        invariant |commitTmp| == start - p
        invariant forall k :: 0 <= k < |commitTmp| ==> commitTmp[k] == data[start - k]
        invariant forall k :: p < k <= start ==> data[k] != '#'
        decreases p
      {
        Seek(-2, Current);
        commitTmp := commitTmp + [buffer];
        if buffer == '#' {
          Seek(-1, Current);
          LastHashIs(data[..start + 1], p);
          return;
        }
        p := p - 1;
        count, buffer := Read();
      }
    }

    // One round of fetch_record: the bytes up to the cursor from the last '#' on, turned
    // round again after they were read backwards.
    method FetchOne(record: string) returns (longer: string)
      requires 0 < pos < |data| && HasHash(data[..pos + 1])
      modifies this`pos
      ensures var q := LastHash(old(data[..pos + 1]));
        && longer == record + old(data)[q..old(pos) + 1]
        && pos == (if q >= 2 then q - 2 else 0)
    {
      hide LastHash;
      ghost var start := pos;
      ghost var q := LastHash(data[..pos + 1]);
      var commitTmp := CollectBack();
      longer := record;
      var rit := |commitTmp|;
      while rit > 0
        invariant 0 <= rit <= |commitTmp| == start + 1 - q
        invariant longer == record + data[q..start + 1 - rit]
      {
        rit := rit - 1;
        ghost var to := start + 1 - rit;
        assert data[q..to] == data[q..to - 1] + [data[to - 1]];
        longer := longer + [commitTmp[rit]];
      }
    }

    // The file has just been opened, and the loop comes to an end on it.
    method FetchRecord(number: nat) returns (record: string)
      requires pos == 0 && RoundsEnd(data, 0, number)
      modifies this`pos
      ensures record == Fetched(data, 0, number)
    {
      hide Fetched, LastHash, Before, HasHash;
      record := "";
      Seek(-1, End);
      assert data[..|data|] == data;
      var i := 0;
      while i < number
        invariant i <= number && (data == "" ==> pos == 0) && (data != "" ==> pos < |data|)
        invariant record + Fetched(data[..UpTo(data, pos)], i, number) == Fetched(data, 0, number)
        invariant RoundsEnd(data[..UpTo(data, pos)], i, number)
      {
        if pos == 0 {
          NothingLeft(data[..UpTo(data, 0)], i, number);
          return;
        }
        ghost var d, was := data[..pos + 1], record;
        if i != 0 {
          record := record + "\n";
        }
        record := FetchOne(record);
        RoundIsFetched(data, d, pos, was, i, number);
        RestAgrees(data, d, LastHash(d), pos, i + 1, number);
        i := i + 1;
      }
      NothingLeft(data[..UpTo(data, pos)], i, number);
    }
  }

  ghost function UpTo(data: string, pos: nat): nat {
    if pos < |data| then pos + 1 else |data|
  }

  lemma NothingLeft(d: string, i: nat, number: nat)
    requires |d| <= 1 || i >= number
    ensures Fetched(d, i, number) == "" && forall s :: s + "" == s
  {
  }

  lemma RestAgrees(data: string, d: string, q: nat, pos: nat, i: nat, number: nat)
    requires q < |d| && d <= data && pos == if q >= 2 then q - 2 else 0
    ensures Fetched(data[..UpTo(data, pos)], i, number) == Fetched(d[..Before(q)], i, number)
    ensures RoundsEnd(data[..UpTo(data, pos)], i, number) <==> RoundsEnd(d[..Before(q)], i, number)
  {
    if q >= 2 {
      assert data[..q - 1] == d[..q - 1];
    } else {
      NothingLeft(data[..UpTo(data, pos)], i, number);
      NothingLeft(d[..0], i, number);
    }
  }

  lemma RoundIsFetched(data: string, d: string, pos: nat, was: string, i: nat, number: nat)
    requires data != "" && |d| > 1 && d <= data && i < number
    requires var q := LastHash(d); pos == if q >= 2 then q - 2 else 0
    ensures var q := LastHash(d);
      (if i != 0 then was + "\n" else was) + d[q..] + Fetched(data[..UpTo(data, pos)], i + 1, number)
        == was + Fetched(d, i, number)
  {
    var q := LastHash(d);
    FetchUnfolds(d, i, number);
    RestAgrees(data, d, q, pos, i + 1, number);
    Regroup(was, i, d[q..], Fetched(d[..Before(q)], i + 1, number));
  }

  lemma Regroup(was: string, i: nat, piece: string, rest: string)
    ensures (if i != 0 then was + "\n" else was) + piece + rest == was + (Separator(i) + piece + rest)
  {
  }
}
