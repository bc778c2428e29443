/** The one-pass comparison of a directory with the last commit: which section each file
    goes to, and when that is where it belongs. */
module CommitMerge {
  import opened CommitRecord

  // ---------------------------------------------------------------- order of names

  predicate Less(a: string, b: string) {
    if b == "" then false
    else if a == "" then true
    else a[0] < b[0] || (a[0] == b[0] && Less(a[1..], b[1..]))
  }

  lemma {:induction false} LessIsStrict(a: string, b: string)
    requires Less(a, b)
    ensures a != b && !Less(b, a)
  {
    if a != "" && a[0] == b[0] {
      LessIsStrict(a[1..], b[1..]);
    }
  }

  lemma {:induction false} LessIsTransitive(a: string, b: string, c: string)
    requires Less(a, b) && Less(b, c)
    ensures Less(a, c)
  {
    if a != "" && a[0] == b[0] == c[0] {
      LessIsTransitive(a[1..], b[1..], c[1..]);
    }
  }

  lemma {:induction false} LessIsTotal(a: string, b: string)
    ensures Less(a, b) || a == b || Less(b, a)
  {
    if a != "" && b != "" && a[0] == b[0] {
      LessIsTotal(a[1..], b[1..]);
      assert a == [a[0]] + a[1..] && b == [b[0]] + b[1..];
    }
  }

  // std::sort on distinct names.
  ghost predicate Sorted(files: seq<File>) {
    forall i, j :: 0 <= i < j < |files| ==> Less(files[i].name, files[j].name)
  }

  ghost predicate Named(files: seq<File>, name: string) {
    exists k :: 0 <= k < |files| && files[k].name == name
  }

  // ---------------------------------------------------------------- the pass

  datatype Verdict = Same | Added | Copied(from: string) | Modified

  // MD5_map[md5]: the last file with this digest, or "".
  function LastWith(files: seq<File>, md5: string): string {
    if files == [] then ""
    else if files[|files| - 1].md5 == md5 then files[|files| - 1].name
    else LastWith(files[..|files| - 1], md5)
  }

  // A file that the pass takes for unseen.
  function Unseen(past: seq<File>, f: File): Verdict {
    var from := LastWith(past, f.md5);
    if from == "" then Added else if from != f.name then Copied(from) else Same
  }

  predicate Meets(past: seq<File>, present: seq<File>, i: nat, j: nat) {
    i < |past| && j < |present| && past[i].name == present[j].name
  }

  function Verdicts(past: seq<File>, present: seq<File>, i: nat, j: nat): (v: seq<Verdict>)
    requires j <= |present|
    ensures |v| == |present| - j
    decreases |present| - j
  {
    if j == |present| then []
    else if Meets(past, present, i, j) then
      [if past[i].md5 != present[j].md5 then Modified else Same] + Verdicts(past, present, i + 1, j + 1)
    else [Unseen(past, present[j])] + Verdicts(past, present, i, j + 1)
  }

  // How far into the old list the pass is when it comes to new file j.
  function Passed(past: seq<File>, present: seq<File>, j: nat): (i: nat)
    requires j <= |present|
    ensures i <= j && i <= |past|
  {
    if j == 0 then 0
    else
      var i := Passed(past, present, j - 1);
      if Meets(past, present, i, j - 1) then i + 1 else i
  }

  function Changed(past: seq<File>, present: seq<File>, i: nat, j: nat): bool
    requires j <= |present|
    decreases |present| - j
  {
    && j < |present|
    && (!Meets(past, present, i, j) || past[i].md5 != present[j].md5 || Changed(past, present, i + 1, j + 1))
  }

  // ---------------------------------------------------------------- sections

  function AddedNames(v: seq<Verdict>, files: seq<File>): seq<string>
    requires |v| == |files|
  {
    if v == [] then []
    else (if v[0] == Added then [files[0].name] else []) + AddedNames(v[1..], files[1..])
  }

  function ModifiedNames(v: seq<Verdict>, files: seq<File>): seq<string>
    requires |v| == |files|
  {
    if v == [] then []
    else (if v[0] == Modified then [files[0].name] else []) + ModifiedNames(v[1..], files[1..])
  }

  function Copies(v: seq<Verdict>, files: seq<File>): seq<Copy>
    requires |v| == |files|
  {
    if v == [] then []
    else (if v[0].Copied? then [Copy(v[0].from, files[0].name)] else []) + Copies(v[1..], files[1..])
  }

  function Compared(number: nat, past: seq<File>, present: seq<File>): Commit {
    var v := Verdicts(past, present, 0, 0);
    Commit(number, AddedNames(v, present), ModifiedNames(v, present), Copies(v, present), present)
  }

  // What remains to be put into the sections from new file j on.
  ghost predicate Rest(c: Commit, done: Commit, v: seq<Verdict>, files: seq<File>)
    requires |v| == |files|
  {
    && c.number == done.number
    && c.added == done.added + AddedNames(v, files)
    && c.modified == done.modified + ModifiedNames(v, files)
    && c.copied == done.copied + Copies(v, files)
    && c.files == done.files + files
  }

  function Put(done: Commit, v: Verdict, f: File): Commit {
    var c := done.(files := done.files + [f]);
    match v
    case Same => c
    case Added => c.(added := c.added + [f.name])
    case Copied(from) => c.(copied := c.copied + [Copy(from, f.name)])
    case Modified => c.(modified := c.modified + [f.name])
  }

  lemma RestAfterPut(c: Commit, done: Commit, v: seq<Verdict>, files: seq<File>)
    requires |v| == |files| > 0 && Rest(c, done, v, files)
    ensures Rest(c, Put(done, v[0], files[0]), v[1..], files[1..])
  {
    assert files == [files[0]] + files[1..];
  }

  lemma MapOfMore(files: seq<File>, f: File, md5: string)
    ensures LastWith(files + [f], md5) == if f.md5 == md5 then f.name else LastWith(files, md5)
  {
    assert (files + [f])[..|files|] == files;
  }

  ghost predicate MapsDigests(m: map<string, string>, files: seq<File>) {
    forall md5 :: LastWith(files, md5) == if md5 in m then m[md5] else ""
  }

  // MD5_map as it is filled while the last commit is read.
  method MapDigests(files: seq<File>) returns (m: map<string, string>)
    ensures MapsDigests(m, files)
  {
    m := map[];
    var k := 0;
    while k < |files|
      invariant k <= |files|
      invariant forall md5 :: LastWith(files[..k], md5) == if md5 in m then m[md5] else ""
    {
      forall md5
        ensures LastWith(files[..k + 1], md5) ==
                if files[k].md5 == md5 then files[k].name else LastWith(files[..k], md5)
      {
        assert files[..k + 1] == files[..k] + [files[k]];
        MapOfMore(files[..k], files[k], md5);
      }
      m := m[files[k].md5 := files[k].name];
      k := k + 1;
    }
    assert files[..|files|] == files;
  }

  // What is in the sections so far, together with the verdicts to come, is the whole.
  ghost predicate Pending(number: nat, past: seq<File>, present: seq<File>, done: Commit, i: nat, j: nat) {
    j <= |present| && Rest(Compared(number, past, present), done, Verdicts(past, present, i, j), present[j..])
  }

  lemma PendingAfterOne(number: nat, past: seq<File>, present: seq<File>, done: Commit, i: nat, j: nat)
    requires Pending(number, past, present, done, i, j) && j < |present|
    ensures Meets(past, present, i, j) ==>
      Pending(number, past, present, Put(done, if past[i].md5 != present[j].md5 then Modified else Same, present[j]),
              i + 1, j + 1)
    ensures !Meets(past, present, i, j) ==>
      Pending(number, past, present, Put(done, Unseen(past, present[j]), present[j]), i, j + 1)
  {
    hide Compared, Unseen, Rest, Put;
    RestAfterPut(Compared(number, past, present), done, Verdicts(past, present, i, j), present[j..]);
  }

  lemma PendingAtFirst(number: nat, past: seq<File>, present: seq<File>)
    ensures Pending(number, past, present, Commit(number, [], [], [], []), 0, 0)
  {
    StartsWithAll(Compared(number, past, present), Commit(number, [], [], [], []),
                  Verdicts(past, present, 0, 0), present);
  }

  lemma PendingAtLast(number: nat, past: seq<File>, present: seq<File>, done: Commit, i: nat)
    requires Pending(number, past, present, done, i, |present|)
    ensures done == Compared(number, past, present)
  {
    NothingRemains(Compared(number, past, present), done);
  }

  // Once the last commit is used up, everything that follows is unseen.
  method CompareRest(number: nat, past: seq<File>, present: seq<File>, done: Commit, from: nat,
                     md5Map: map<string, string>)
    returns (c: Commit)
    requires from <= |present| && MapsDigests(md5Map, past) && Pending(number, past, present, done, |past|, from)
    ensures Pending(number, past, present, c, |past|, |present|)
  {
    hide Pending, MapsDigests, Put, Unseen;
    var m := md5Map;
    c := done;
    var j := from;
    while j < |present|
      invariant j <= |present| && MapsDigests(m, past) && Pending(number, past, present, c, |past|, j)
    {
      PendingAfterOne(number, past, present, c, |past|, j);
      c, m := PutUnseen(c, past, present[j], m);
      j := j + 1;
    }
  }

  // The loop of Compare.
  method Compare(number: nat, past: seq<File>, present: seq<File>) returns (c: Commit, isChange: bool)
    requires past != []
    ensures c == Compared(number, past, present)
    ensures isChange == Changed(past, present, 0, 0)
  {
    hide Pending, MapsDigests, Put, Unseen;
    var md5Map := MapDigests(past);
    var i, j := 0, 0;
    isChange := false;
    c := Commit(number, [], [], [], []);
    PendingAtFirst(number, past, present);
    while i < |past| && j < |present|
      invariant 0 <= i <= |past| && 0 <= j <= |present| && (i == |past| ==> j == |present|)
      invariant MapsDigests(md5Map, past) && Pending(number, past, present, c, i, j)
      invariant Changed(past, present, 0, 0) == (isChange || Changed(past, present, i, j))
      decreases |present| - j
    {
      PendingAfterOne(number, past, present, c, i, j);
      if past[i].name != present[j].name {
        isChange := true;
        c, md5Map := PutUnseen(c, past, present[j], md5Map);
        j := j + 1;
        continue;
      } else {
        if past[i].md5 != present[j].md5 {
          c := Put(c, Modified, present[j]);
          isChange := true;
        } else {
          c := Put(c, Same, past[i]);
        }
        i := i + 1;
        j := j + 1;
      }
      if i == |past| {
        isChange := isChange || j < |present|;
        c := CompareRest(number, past, present, c, j, md5Map);
        j := |present|;
        break;
      }
    }
    PendingAtLast(number, past, present, c, i);
  }

  // Looking a digest up inserts "" for one that is not there.
  method PutUnseen(done: Commit, past: seq<File>, f: File, md5Map: map<string, string>)
    returns (c: Commit, m: map<string, string>)
    requires MapsDigests(md5Map, past)
    ensures c == Put(done, Unseen(past, f), f)
    ensures MapsDigests(m, past)
  {
    m := md5Map;
    if f.md5 !in m {
      m := m[f.md5 := ""];
    }
    var fileName := m[f.md5];
    assert fileName == LastWith(past, f.md5);
    if fileName == "" {
      c := Put(done, Added, f);
    } else if fileName != f.name {
      c := Put(done, Copied(fileName), f);
    } else {
      c := Put(done, Same, f);
    }
  }

  lemma StartsWithAll(c: Commit, none: Commit, v: seq<Verdict>, files: seq<File>)
    requires |v| == |files| && none == Commit(c.number, [], [], [], [])
    requires c == Commit(c.number, AddedNames(v, files), ModifiedNames(v, files), Copies(v, files), files)
    ensures Rest(c, none, v, files) && files[0..] == files
  {
  }

  lemma NothingRemains(c: Commit, done: Commit)
    requires Rest(c, done, [], [])
    ensures c == done
  {
  }

  // ---------------------------------------------------------------- what the pass finds out

  // The pass reports no change exactly when the directory's list is the beginning of the
  // last commit's: files deleted from the end go unnoticed.
  lemma {:induction false} NoChangeFrom(past: seq<File>, present: seq<File>, i: nat, j: nat)
    requires j <= |present| && i <= |past|
    ensures !Changed(past, present, i, j) <==> present[j..] <= past[i..]
    decreases |present| - j
  {
    if j < |present| {
      assert present[j..] == [present[j]] + present[j + 1..];
      if i < |past| {
        assert past[i..] == [past[i]] + past[i + 1..];
        NoChangeFrom(past, present, i + 1, j + 1);
      }
    }
  }

  lemma NoChangeIff(past: seq<File>, present: seq<File>)
    ensures !Changed(past, present, 0, 0) <==> present <= past
  {
    NoChangeFrom(past, present, 0, 0);
    assert present[0..] == present && past[0..] == past;
  }

  ghost predicate NoneDeleted(past: seq<File>, present: seq<File>) {
    forall k :: 0 <= k < |past| ==> Named(present, past[k].name)
  }

  // If no file was deleted, that is when nothing changed at all.
  lemma UnchangedMeansEqual(past: seq<File>, present: seq<File>)
    requires Sorted(past) && NoneDeleted(past, present)
    ensures !Changed(past, present, 0, 0) <==> past == present
  {
    NoChangeIff(past, present);
    if present <= past && |present| < |past| {
      assert Named(present, past[|present|].name);
      var k :| 0 <= k < |present| && present[k].name == past[|present|].name;
      LessIsStrict(past[k].name, past[|present|].name);
    }
  }

  // ---------------------------------------------------------------- the right sections

  function IndexOf(files: seq<File>, name: string): (k: nat)
    ensures k <= |files| && (k < |files| <==> Named(files, name))
    ensures k < |files| ==> files[k].name == name
  {
    if files == [] then 0
    else if files[|files| - 1].name == name then |files| - 1
    else
      var k := IndexOf(files[..|files| - 1], name);
      if k == |files| - 1 then |files| else k
  }

  // Where a file belongs: by its name if the last commit has it, else by its digest.
  function Right(past: seq<File>, f: File): Verdict {
    var k := IndexOf(past, f.name);
    if k < |past| then
      if past[k].md5 == f.md5 then Same else Modified
    else if LastWith(past, f.md5) == "" then Added
    else Copied(LastWith(past, f.md5))
  }

  // Some file deleted since the last commit comes before this one.
  ghost predicate Stuck(past: seq<File>, present: seq<File>, f: File) {
    exists k :: 0 <= k < |past| && Less(past[k].name, f.name) && !Named(present, past[k].name)
  }

  lemma {:induction false} VerdictAt(past: seq<File>, present: seq<File>, i: nat, j: nat, k: nat)
    requires j <= k < |present| && i == Passed(past, present, j)
    ensures var p := Passed(past, present, k);
      Verdicts(past, present, i, j)[k - j] ==
        if Meets(past, present, p, k) then (if past[p].md5 != present[k].md5 then Modified else Same)
        else Unseen(past, present[k])
    decreases k - j
  {
    if j < k {
      VerdictAt(past, present, Passed(past, present, j + 1), j + 1, k);
    }
  }

  // Among the first j files.
  ghost predicate NamedBefore(files: seq<File>, j: nat, name: string) {
    exists m :: 0 <= m < j && m < |files| && files[m].name == name
  }

  // The pass has gone by old files that are still there.
  lemma {:induction false} PassedAreKept(past: seq<File>, present: seq<File>, j: nat, k: nat)
    requires j <= |present| && k < Passed(past, present, j)
    ensures NamedBefore(present, j, past[k].name)
  {
    if k < Passed(past, present, j - 1) {
      PassedAreKept(past, present, j - 1, k);
      var m :| 0 <= m < j - 1 && m < |present| && present[m].name == past[k].name;
    } else {
      assert present[j - 1].name == past[k].name;
    }
  }

  ghost predicate AllLess(files: seq<File>, j: nat, name: string)
    requires j <= |files|
  {
    forall m :: 0 <= m < j ==> Less(files[m].name, name)
  }

  lemma LessThanLater(files: seq<File>, j: nat, name: string)
    requires Sorted(files) && j < |files| && (files[j].name == name || Less(files[j].name, name))
    ensures AllLess(files, j, name)
  {
    hide Less;
    forall m | 0 <= m < j ensures Less(files[m].name, name) {
      if files[j].name != name {
        LessIsTransitive(files[m].name, files[j].name, name);
      }
    }
  }

  // It stands at an old file that is not before the current new file, or is deleted.
  lemma {:induction false} WhereThePassIs(past: seq<File>, present: seq<File>, j: nat)
    requires Sorted(past) && Sorted(present) && j <= |present|
    ensures var i := Passed(past, present, j);
      i < |past| ==> AllLess(present, j, past[i].name) || !Named(present, past[i].name)
  {
    hide Less;
    if j > 0 {
      WhereThePassIs(past, present, j - 1);
      var i := Passed(past, present, j - 1);
      if i < |past| {
        if Meets(past, present, i, j - 1) {
          if i + 1 < |past| {
            LessThanLater(present, j - 1, past[i + 1].name);
          }
        } else {
          LessIsTotal(present[j - 1].name, past[i].name);
          if Less(past[i].name, present[j - 1].name) && Named(present, past[i].name) {
            GoneBetween(present, past[i].name, j - 1);
          } else if Less(present[j - 1].name, past[i].name) {
            LessThanLater(present, j - 1, past[i].name);
          }
        }
      }
    }
  }

  lemma GoneBetween(files: seq<File>, name: string, j: nat)
    requires Sorted(files) && j < |files| && Less(name, files[j].name) && AllLess(files, j, name)
    ensures !Named(files, name)
  {
    hide Less;
    forall k | 0 <= k < |files| ensures files[k].name != name {
      if k < j {
        LessIsStrict(files[k].name, name);
      } else if k == j {
        LessIsStrict(name, files[j].name);
      } else {
        LessIsStrict(files[j].name, files[k].name);
      }
    }
  }

  lemma SortedNamesDiffer(files: seq<File>, j: nat, k: nat)
    requires Sorted(files) && j < |files| && k < |files| && files[j].name == files[k].name
    ensures j == k
  {
    if j < k {
      LessIsStrict(files[j].name, files[k].name);
    } else if k < j {
      LessIsStrict(files[k].name, files[j].name);
    }
  }

  // Where the names meet, nothing deleted lies before.
  lemma MeetingIsNotStuck(past: seq<File>, present: seq<File>, j: nat)
    requires Sorted(past) && Sorted(present) && j < |present| && Meets(past, present, Passed(past, present, j), j)
    ensures !Stuck(past, present, present[j]) && IndexOf(past, present[j].name) == Passed(past, present, j)
  {
    hide Less, Passed, IndexOf;
    var p := Passed(past, present, j);
    assert Named(past, past[p].name);
    SortedNamesDiffer(past, p, IndexOf(past, present[j].name));
    forall k | 0 <= k < |past| && Less(past[k].name, past[p].name) ensures Named(present, past[k].name) {
      if k >= p {
        LessIsStrict(past[k].name, past[p].name);
      } else {
        PassedAreKept(past, present, j, k);
      }
    }
  }

  // Where they do not, a file the last commit has comes after a deleted one.
  lemma MissingIsStuck(past: seq<File>, present: seq<File>, j: nat)
    requires Sorted(past) && Sorted(present) && j < |present| && !Meets(past, present, Passed(past, present, j), j)
    requires Named(past, present[j].name)
    ensures Stuck(past, present, present[j])
  {
    var p, q := Passed(past, present, j), IndexOf(past, present[j].name);
    WhereThePassIs(past, present, j);
    hide Less, Passed, IndexOf;
    if q < p {
      PassedAreKept(past, present, j, q);
      var m :| 0 <= m < j && m < |present| && present[m].name == past[q].name;
      SortedNamesDiffer(present, m, j);
    } else {
      assert q > p && Less(past[p].name, present[j].name);
      if Named(present, past[p].name) {
        GoneBetween(present, past[p].name, j);
      }
    }
  }

  ghost predicate NamesGiven(files: seq<File>) {
    forall k :: 0 <= k < |files| ==> files[k].name != ""
  }

  lemma {:induction false} LastWithIsAFile(files: seq<File>, md5: string)
    requires LastWith(files, md5) != ""
    ensures exists k :: 0 <= k < |files| && files[k] == File(LastWith(files, md5), md5)
  {
    var last := |files| - 1;
    if files[last].md5 == md5 {
      assert files[last] == File(files[last].name, md5);
    } else {
      LastWithIsAFile(files[..last], md5);
      var k :| 0 <= k < last && files[..last][k] == File(LastWith(files[..last], md5), md5);
      assert files[k] == File(LastWith(files, md5), md5);
    }
  }

  // Taking a file for unseen does no harm to one that really is, nor to one that is the
  // last with its digest.
  lemma UnseenIsRightIff(past: seq<File>, f: File)
    requires Sorted(past) && f.name != ""
    ensures Unseen(past, f) == Right(past, f) <==> (Named(past, f.name) ==> LastWith(past, f.md5) == f.name)
  {
    if LastWith(past, f.md5) == f.name {
      LastWithIsAFile(past, f.md5);
      var k :| 0 <= k < |past| && past[k] == File(f.name, f.md5);
      SortedNamesDiffer(past, k, IndexOf(past, f.name));
    }
  }

  ghost predicate StaysInPlace(past: seq<File>, present: seq<File>, f: File) {
    Named(past, f.name) && Stuck(past, present, f) ==> LastWith(past, f.md5) == f.name
  }

  lemma VerdictIsRightIff(past: seq<File>, present: seq<File>, j: nat)
    requires Sorted(past) && Sorted(present) && NamesGiven(present) && j < |present|
    ensures Verdicts(past, present, 0, 0)[j] == Right(past, present[j]) <==> StaysInPlace(past, present, present[j])
  {
    hide Unseen, Right, Stuck, LastWith, Verdicts, Passed;
    PassStarts(past, present);
    VerdictAt(past, present, 0, 0, j);
    if Meets(past, present, Passed(past, present, j), j) {
      MeetingIsNotStuck(past, present, j);
      RightAt(past, present[j]);
    } else {
      UnseenIsRightIff(past, present[j]);
      if Named(past, present[j].name) {
        MissingIsStuck(past, present, j);
      }
    }
  }

  lemma PassStarts(past: seq<File>, present: seq<File>)
    ensures Passed(past, present, 0) == 0
  {
  }

  lemma RightAt(past: seq<File>, f: File)
    ensures var k := IndexOf(past, f.name);
      k < |past| ==> Right(past, f) == if past[k].md5 == f.md5 then Same else Modified
  {
  }

  // The whole pass puts every file in the right section exactly when each kept file that
  // comes after a deleted one is the last file of the old list with its contents.
  lemma SectionsAreRightIff(past: seq<File>, present: seq<File>)
    requires Sorted(past) && Sorted(present) && NamesGiven(present)
    ensures (forall j :: 0 <= j < |present| ==> Verdicts(past, present, 0, 0)[j] == Right(past, present[j])) <==>
            (forall j :: 0 <= j < |present| ==> StaysInPlace(past, present, present[j]))
  {
    hide Verdicts, Right, StaysInPlace;
    forall j | 0 <= j < |present|
      ensures Verdicts(past, present, 0, 0)[j] == Right(past, present[j]) <==> StaysInPlace(past, present, present[j]) {
      VerdictIsRightIff(past, present, j);
    }
  }

  // So it does when nothing was deleted.
  lemma NoneDeletedIsRight(past: seq<File>, present: seq<File>, j: nat)
    requires Sorted(past) && Sorted(present) && NamesGiven(present) && NoneDeleted(past, present) && j < |present|
    ensures Verdicts(past, present, 0, 0)[j] == Right(past, present[j])
  {
    VerdictIsRightIff(past, present, j);
  }

  // Two directories the pass gets wrong. With a deleted, b is reported as a copy of c,
  // although it is what it was; and when only the last file goes, nothing is reported.
  lemma DeletionMisleads()
    ensures var past, present := [File("a", "x"), File("b", "y"), File("c", "y")], [File("b", "y"), File("c", "y")];
      && Sorted(past) && Sorted(present)
      && Verdicts(past, present, 0, 0)[0] == Copied("c") && Right(past, present[0]) == Same
    ensures var past := [File("a", "x"), File("b", "y")];
      !Changed(past, past[..1], 0, 0) && past[..1] != past
  {
    var past, present := [File("a", "x"), File("b", "y"), File("c", "y")], [File("b", "y"), File("c", "y")];
    assert !Meets(past, present, 0, 0);
    assert past[..2] == [File("a", "x"), File("b", "y")];
    assert LastWith(past, "y") == "c";
    assert past[1].name == "b";
    SortedNamesDiffer(past, 1, IndexOf(past, "b"));
    NoChangeIff([File("a", "x"), File("b", "y")], [File("a", "x")]);
  }

  // ---------------------------------------------------------------- what the user reads

  lemma {:induction false} AddedLists(v: seq<Verdict>, files: seq<File>, name: string)
    requires |v| == |files|
    ensures name in AddedNames(v, files) <==> exists j :: 0 <= j < |v| && v[j] == Added && files[j].name == name
  {
    if v != [] {
      AddedLists(v[1..], files[1..], name);
      if exists j :: 0 <= j < |v| && v[j] == Added && files[j].name == name {
        var j :| 0 <= j < |v| && v[j] == Added && files[j].name == name;
        assert j > 0 ==> v[1..][j - 1] == Added && files[1..][j - 1].name == name;
      }
    }
  }

  lemma {:induction false} ModifiedLists(v: seq<Verdict>, files: seq<File>, name: string)
    requires |v| == |files|
    ensures name in ModifiedNames(v, files) <==> exists j :: 0 <= j < |v| && v[j] == Modified && files[j].name == name
  {
    if v != [] {
      ModifiedLists(v[1..], files[1..], name);
      if exists j :: 0 <= j < |v| && v[j] == Modified && files[j].name == name {
        var j :| 0 <= j < |v| && v[j] == Modified && files[j].name == name;
        assert j > 0 ==> v[1..][j - 1] == Modified && files[1..][j - 1].name == name;
      }
    }
  }

  lemma {:induction false} CopiesList(v: seq<Verdict>, files: seq<File>, copy: Copy)
    requires |v| == |files|
    ensures copy in Copies(v, files) <==>
            exists j :: 0 <= j < |v| && v[j] == Copied(copy.from) && files[j].name == copy.to
  {
    if v != [] {
      CopiesList(v[1..], files[1..], copy);
      if exists j :: 0 <= j < |v| && v[j] == Copied(copy.from) && files[j].name == copy.to {
        var j :| 0 <= j < |v| && v[j] == Copied(copy.from) && files[j].name == copy.to;
        assert j > 0 ==> v[1..][j - 1] == Copied(copy.from) && files[1..][j - 1].name == copy.to;
      }
    }
  }

  ghost predicate Digested(files: seq<File>, md5: string) {
    exists k :: 0 <= k < |files| && files[k].md5 == md5
  }

  lemma {:induction false} LastWithIsKnown(files: seq<File>, md5: string)
    requires NamesGiven(files)
    ensures LastWith(files, md5) != "" <==> Digested(files, md5)
  {
    if files != [] {
      var front := files[..|files| - 1];
      LastWithIsKnown(front, md5);
      if Digested(files, md5) && files[|files| - 1].md5 != md5 {
        var k :| 0 <= k < |files| && files[k].md5 == md5;
        assert front[k].md5 == md5;
      }
    }
  }

  lemma OnlyVerdict(past: seq<File>, present: seq<File>, j: nat, verdict: Verdict)
    requires Sorted(present) && j < |present|
    ensures var v := Verdicts(past, present, 0, 0);
      (exists i :: 0 <= i < |v| && v[i] == verdict && present[i].name == present[j].name) <==> v[j] == verdict
  {
    hide Verdicts;
    forall i | 0 <= i < |present| && present[i].name == present[j].name ensures i == j {
      SortedNamesDiffer(present, i, j);
    }
  }

  // With nothing deleted, the three sections are the set definitions: new files have an
  // unseen name and digest, copies an unseen name but a digest of the file they come from,
  // modified files a name of the last commit and another digest than it had there.
  lemma SectionsMeanWhatTheySay(number: nat, past: seq<File>, present: seq<File>, j: nat)
    requires Sorted(past) && Sorted(present) && NamesGiven(past) && NamesGiven(present) && NoneDeleted(past, present)
    requires j < |present|
    ensures var c, f := Compared(number, past, present), present[j];
      && (f.name in c.added <==> !Named(past, f.name) && !Digested(past, f.md5))
      && (f.name in c.modified <==> Named(past, f.name) && f !in past)
      && (forall from :: Copy(from, f.name) in c.copied <==>
            !Named(past, f.name) && Digested(past, f.md5) && from == LastWith(past, f.md5))
      && c.files == present
  {
    hide Verdicts, AddedNames, ModifiedNames, Copies, LastWith;
    var v, f := Verdicts(past, present, 0, 0), present[j];
    NoneDeletedIsRight(past, present, j);
    AddedLists(v, present, f.name);
    OnlyVerdict(past, present, j, Added);
    ModifiedLists(v, present, f.name);
    OnlyVerdict(past, present, j, Modified);
    forall from ensures Copy(from, f.name) in Copies(v, present) <==> v[j] == Copied(from) {
      CopiesList(v, present, Copy(from, f.name));
      OnlyVerdict(past, present, j, Copied(from));
    }
    LastWithIsKnown(past, f.md5);
    KeptUnchanged(past, f);
  }

  lemma KeptUnchanged(past: seq<File>, f: File)
    requires Sorted(past)
    ensures var k := IndexOf(past, f.name); f in past <==> k < |past| && past[k].md5 == f.md5
  {
    if f in past {
      var i :| 0 <= i < |past| && past[i] == f;
      SortedNamesDiffer(past, i, IndexOf(past, f.name));
    } else if IndexOf(past, f.name) < |past| {
      assert past[IndexOf(past, f.name)].name == f.name;
    }
  }
}
