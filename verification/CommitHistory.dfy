/** A whole history of commits: the record holds every one of them, the last one reads
    back exactly, and log shows the newest first. */
module CommitHistory {
  import opened CommitRecord
  import opened CommitMerge
  import opened RecordFile
  import opened Options

  function NamesOf(files: seq<File>): (names: seq<string>)
    ensures |names| == |files| && forall k :: 0 <= k < |files| ==> names[k] == files[k].name
  {
    seq(|files|, k requires 0 <= k < |files| => files[k].name)
  }

  function FirstCommit(files: seq<File>): Commit {
    Commit(1, NamesOf(files), [], [], files)
  }

  // The record after one more commit of a directory with these files. A record that does
  // not parse is left alone here; the source's behaviour on it is undefined.
  function CommitTo(record: Option<string>, files: seq<File>): Option<string> {
    if files == [] then record
    else
      match record
      case None => Some(Text(FirstCommit(files)))
      case Some(r) =>
        match Parse(Fetched(r, 0, 1))
        case None => record
        case Some((count, last)) =>
          if last != [] && Changed(last, files, 0, 0) then
            Some(r + "\n" + Text(Compared(count + 1, last, files)))
          else record
  }

  function RecordAfter(snapshots: seq<seq<File>>): Option<string> {
    if snapshots == [] then None
    else CommitTo(RecordAfter(snapshots[..|snapshots| - 1]), snapshots[|snapshots| - 1])
  }

  // The same history without a file: just the commits made.
  function MakeNext(made: seq<Commit>, files: seq<File>): seq<Commit> {
    if files == [] then made
    else if made == [] then [FirstCommit(files)]
    else
      var last := made[|made| - 1];
      if Changed(last.files, files, 0, 0) then made + [Compared(|made| + 1, last.files, files)] else made
  }

  function Made(snapshots: seq<seq<File>>): seq<Commit> {
    if snapshots == [] then []
    else MakeNext(Made(snapshots[..|snapshots| - 1]), snapshots[|snapshots| - 1])
  }

  function Texts(made: seq<Commit>): (t: seq<string>)
    ensures |t| == |made| && forall k :: 0 <= k < |made| ==> t[k] == Text(made[k])
  {
    seq(|made|, k requires 0 <= k < |made| => Text(made[k]))
  }

  ghost predicate PlainSnapshots(snapshots: seq<seq<File>>) {
    forall k :: 0 <= k < |snapshots| ==> PlainFiles(snapshots[k])
  }

  ghost predicate PlainHistory(made: seq<Commit>) {
    forall k :: 0 <= k < |made| ==> PlainCommit(made[k]) && made[k].number == k + 1
  }

  ghost predicate IsRecordOf(record: Option<string>, made: seq<Commit>) {
    record == if made == [] then None else Some(Join(Texts(made)))
  }

  lemma {:induction false} VerdictsComeFrom(past: seq<File>, present: seq<File>, i: nat, j: nat, k: nat)
    requires j <= |present| && k < |present| - j && Verdicts(past, present, i, j)[k].Copied?
    ensures Verdicts(past, present, i, j)[k] == Unseen(past, present[j + k])
    decreases |present| - j
  {
    if k > 0 {
      VerdictsComeFrom(past, present, if Meets(past, present, i, j) then i + 1 else i, j + 1, k - 1);
    }
  }

  lemma ComparedIsPlain(number: nat, past: seq<File>, present: seq<File>)
    requires PlainFiles(past) && PlainFiles(present) && present != []
    ensures PlainCommit(Compared(number, past, present))
  {
    var c, v := Compared(number, past, present), Verdicts(past, present, 0, 0);
    hide Plain, AddedNames, ModifiedNames, Copies, Verdicts;
    forall k | 0 <= k < |c.added| ensures Plain(c.added[k]) {
      AddedLists(v, present, c.added[k]);
    }
    forall k | 0 <= k < |c.modified| ensures Plain(c.modified[k]) {
      ModifiedLists(v, present, c.modified[k]);
    }
    forall k | 0 <= k < |c.copied| ensures Plain(c.copied[k].from) && Plain(c.copied[k].to) {
      CopiesList(v, present, c.copied[k]);
      var j :| 0 <= j < |v| && v[j] == Copied(c.copied[k].from) && present[j].name == c.copied[k].to;
      VerdictsComeFrom(past, present, 0, 0, j);
      LastWithIsAFile(past, present[j].md5);
    }
  }

  lemma TextsAreCommits(made: seq<Commit>)
    requires PlainHistory(made)
    ensures CommitTexts(Texts(made))
  {
    hide PlainCommit, Text, CommitText;
    forall k | 0 <= k < |made| ensures CommitText(Texts(made)[k]) {
      PrintedCommitIsText(made[k]);
    }
  }

  lemma NewestOne(texts: seq<string>)
    requires texts != []
    ensures Join(Newest(texts, 1)) == texts[|texts| - 1]
  {
    var front, last := texts[..|texts| - 1], texts[|texts| - 1];
    assert texts == front + [last];
    NewestMore(front, last, 1);
    assert Newest(front, 0) == [];
    assert Newest(texts, 1) == [last];
  }

  // The last commit in the file is read back with its number and its exact list of files.
  lemma LastCommitReadsBack(made: seq<Commit>)
    requires PlainHistory(made) && made != []
    ensures Parse(Fetched(Join(Texts(made)), 0, 1)) == Some((|made|, made[|made| - 1].files))
  {
    hide PlainCommit, Text, Parse, Fetched, CommitTexts, Join, Newest;
    var texts := Texts(made);
    TextsAreCommits(made);
    LogPrintsTheNewest(texts, 1);
    NewestOne(texts);
    assert Fetched(Join(texts), 0, 1) == texts[|texts| - 1];
    ParseInvertsText(made[|made| - 1]);
  }

  lemma RecordGrows(made: seq<Commit>, c: Commit)
    ensures Join(Texts(made + [c])) == if made == [] then Text(c) else Join(Texts(made)) + "\n" + Text(c)
  {
    assert Texts(made + [c]) == Texts(made) + [Text(c)];
    JoinMore(Texts(made), Text(c));
  }

  lemma FirstIsPlain(files: seq<File>)
    requires PlainFiles(files) && files != []
    ensures PlainCommit(FirstCommit(files))
  {
    hide Plain;
  }

  lemma CommitExtendsHistory(record: Option<string>, made: seq<Commit>, files: seq<File>)
    requires PlainHistory(made) && IsRecordOf(record, made) && PlainFiles(files)
    ensures PlainHistory(MakeNext(made, files)) && IsRecordOf(CommitTo(record, files), MakeNext(made, files))
  {
    hide PlainCommit, PlainFiles, Text, Parse, Fetched, Join, Compared, Changed, FirstCommit, Texts;
    if files != [] {
      if made == [] {
        FirstIsPlain(files);
        FirstIsNumberOne(files);
        RecordGrows([], FirstCommit(files));
        assert [] + [FirstCommit(files)] == [FirstCommit(files)];
      } else {
        var last := made[|made| - 1];
        LastCommitReadsBack(made);
        PlainCommitHasFiles(last);
        ComparedIsPlain(|made| + 1, last.files, files);
        ComparedIsNumber(|made| + 1, last.files, files);
        RecordGrows(made, Compared(|made| + 1, last.files, files));
      }
    }
  }

  lemma FirstIsNumberOne(files: seq<File>)
    ensures FirstCommit(files).number == 1
  {
  }

  lemma ComparedIsNumber(number: nat, past: seq<File>, present: seq<File>)
    ensures Compared(number, past, present).number == number
  {
  }

  lemma PlainCommitHasFiles(c: Commit)
    requires PlainCommit(c)
    ensures PlainFiles(c.files) && c.files != []
  {
  }

  // After any sequence of commits the file is exactly the commits made, in order,
  // numbered from 1.
  lemma {:induction false} RecordIsTheHistory(snapshots: seq<seq<File>>)
    requires PlainSnapshots(snapshots)
    ensures PlainHistory(Made(snapshots)) && IsRecordOf(RecordAfter(snapshots), Made(snapshots))
  {
    hide PlainFiles, CommitTo, MakeNext;
    if snapshots != [] {
      var front := snapshots[..|snapshots| - 1];
      RecordIsTheHistory(front);
      CommitExtendsHistory(RecordAfter(front), Made(front), snapshots[|snapshots| - 1]);
    }
  }

  // Whatever was committed, reading back gives the number and files of the last commit,
  // and log n gives the last min(n, total) commits, newest first.
  lemma RecordReadsBack(snapshots: seq<seq<File>>, n: nat)
    requires PlainSnapshots(snapshots) && RecordAfter(snapshots).Some?
    ensures var record, made := RecordAfter(snapshots).value, Made(snapshots);
      && made != []
      && Parse(Fetched(record, 0, 1)) == Some((|made|, made[|made| - 1].files))
      && Fetched(record, 0, n) == Join(Newest(Texts(made), n))
  {
    RecordIsTheHistory(snapshots);
    LastCommitReadsBack(Made(snapshots));
    TextsAreCommits(Made(snapshots));
    LogPrintsTheNewest(Texts(Made(snapshots)), n);
  }

  // After a commit of some files, the last commit lists them, with at most files deleted
  // from the end of the list still there.
  lemma LastCommitCovers(snapshots: seq<seq<File>>, files: seq<File>)
    requires files != []
    ensures var made := Made(snapshots + [files]); made != [] && files <= made[|made| - 1].files
  {
    var made := Made(snapshots);
    assert (snapshots + [files])[..|snapshots|] == snapshots;
    if made != [] {
      NoChangeIff(made[|made| - 1].files, files);
    }
  }

  // ---------------------------------------------------------------- the program

  // The reading loop of Compare.
  method ReadCommit(lastCommit: string) returns (r: Option<(nat, seq<File>)>)
    ensures r == Parse(lastCommit)
  {
    hide Find, ParseFiles, IsNumber, ValueOf;
    if |lastCommit| < 2 {
      return None;
    }
    var begin := Find(lastCommit, ' ', 2) + 1;
    var end := Find(lastCommit, '\n', begin);
    if begin > |lastCommit| || end == |lastCommit| || !IsNumber(lastCommit[begin..end]) {
      return None;
    }
    var count := ValueOf(lastCommit[begin..end]);
    begin := Find(lastCommit, ')', end) + 1;
    end := Find(lastCommit, ' ', begin);
    var files := ReadFiles(lastCommit, begin, end);
    return if files == None then None else Some((count, files.value));
  }

  method ReadFiles(s: string, from: nat, to: nat) returns (r: Option<seq<File>>)
    ensures r == ParseFiles(s, from, to)
  {
    var begin: nat, end: nat := from, to;
    var files: seq<File> := [];
    NothingPrecedes(ParseFiles(s, from, to));
    while true
      invariant ParseFiles(s, from, to) == Preceded(files, ParseFiles(s, begin, end))
      decreases |s| - end
    {
      if !(begin < end < |s|) {
        return None;
      }
      var begin' := Find(s, '\n', end);
      if begin' == |s| || begin' == end {
        return None;
      }
      ghost var was := files;
      files := files + [File(s[begin + 1..end], s[end + 1..begin'])];
      var end' := Find(s, ' ', begin');
      if end' == |s| {
        return Some(files);
      }
      OneMorePrecedes(was, File(s[begin + 1..end], s[end + 1..begin']), ParseFiles(s, begin', end'));
      begin, end := begin', end';
    }
  }

  ghost function Preceded(files: seq<File>, rest: Option<seq<File>>): Option<seq<File>> {
    match rest
    case None => None
    case Some(more) => Some(files + more)
  }

  lemma NothingPrecedes(rest: Option<seq<File>>)
    ensures Preceded([], rest) == rest
  {
    assert rest.Some? ==> [] + rest.value == rest.value;
  }

  lemma OneMorePrecedes(files: seq<File>, f: File, rest: Option<seq<File>>)
    ensures Preceded(files, Preceded([f], rest)) == Preceded(files + [f], rest)
  {
    if rest.Some? {
      assert files + ([f] + rest.value) == files + [f] + rest.value;
    }
  }

  class Keeper {
    var record: Option<string>

    // The record file, if there is one, is the program's own.
    ghost predicate Valid()
      reads this
    {
      record.Some? ==> record.value != "" && record.value[0] == '#'
    }

    constructor ()
      ensures Valid() && record == None
    {
      record := None;
    }

    method Commit(files: seq<File>)
      requires Valid()
      modifies this
      ensures Valid() && record == CommitTo(old(record), files)
    {
      hide Fetched, Parse, Changed, Compared, Sections, FileLines, Decimal;
      if files == [] {
        return;
      }
      if record == None {
        record := Some(Text(FirstCommit(files)));
        return;
      }
      var file := new Stream(record.value);
      RecordsEnd(record.value, 0, 1);
      var text := file.FetchRecord(1);
      var last := ReadCommit(text);
      if last == None || last.value.1 == [] {
        return;
      }
      var c, isChange := Compare(last.value.0 + 1, last.value.1, files);
      if isChange {
        file.Append("\n" + Text(c));
        assert record.value + ("\n" + Text(c)) == record.value + "\n" + Text(c);
        record := Some(file.data);
      }
    }

    method Log(number: nat) returns (output: string)
      requires Valid()
      ensures output == if record == None then "" else Fetched(record.value, 0, number)
    {
      output := "";
      if number == 0 || record == None {
        return;
      }
      var file := new Stream(record.value);
      RecordsEnd(record.value, 0, number);
      output := file.FetchRecord(number);
    }
  }
}
