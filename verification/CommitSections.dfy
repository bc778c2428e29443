/** What a reader finds under the headings of a printed commit. */
module CommitSections {
  import opened CommitRecord
  import opened CommitMerge
  import opened CommitHistory
  import opened Options

  // ---------------------------------------------------------------- reading

  // The lines of a text, each without its newline.
  function Lines(s: string): seq<string>
    decreases |s|
  {
    if s == "" then []
    else
      var k := Find(s, '\n', 0);
      if k == |s| then [s] else [s[..k]] + Lines(s[k + 1..])
  }

  // What comes before the first line that says this, and what comes after it.
  function UpTo(lines: seq<string>, heading: string): seq<string> {
    if lines == [] || lines[0] == heading then [] else [lines[0]] + UpTo(lines[1..], heading)
  }

  function Behind(lines: seq<string>, heading: string): seq<string> {
    if lines == [] then [] else if lines[0] == heading then lines[1..] else Behind(lines[1..], heading)
  }

  // "from => to" is split at its first space.
  function CopyOf(line: string): Copy {
    var k := Find(line, ' ', 0);
    if k + 4 <= |line| && line[k..k + 4] == " => " then Copy(line[..k], line[k + 4..]) else Copy("", "")
  }

  function CopiesOf(lines: seq<string>): (copies: seq<Copy>)
    ensures |copies| == |lines|
  {
    seq(|lines|, k requires 0 <= k < |lines| => CopyOf(lines[k]))
  }

  // The number in the title line "# commit n".
  function NumberIn(lines: seq<string>): Option<nat> {
    if lines != [] && "# commit " <= lines[0] && IsNumber(lines[0][9..]) then Some(ValueOf(lines[0][9..])) else None
  }

  datatype Report = Report(number: Option<nat>, added: seq<string>, modified: seq<string>, copied: seq<Copy>)

  // The number in the title, and the names listed under each of the three headings, read
  // from the top.
  function Reading(text: string): Report {
    var first := Behind(Lines(text), "[new_file]");
    var second := Behind(first, "[modified]");
    var third := Behind(second, "[copied]");
    Report(NumberIn(Lines(text)), UpTo(first, "[modified]"), UpTo(second, "[copied]"), CopiesOf(UpTo(third, "(MD5)")))
  }

  // ---------------------------------------------------------------- lines of what is printed

  lemma LineFirst(line: string, rest: string)
    requires Lacks(line, '\n')
    ensures Lines(line + "\n" + rest) == [line] + Lines(rest)
  {
    var s := line + "\n" + rest;
    assert forall k :: 0 <= k < |line| ==> s[k] == line[k];
    FindIs(s, '\n', 0, |line|);
    assert s[..|line|] == line && s[|line| + 1..] == rest;
  }

  lemma {:induction false} NamesAreLines(names: seq<string>, rest: string)
    requires PlainNames(names)
    ensures Lines(NameLines(names) + rest) == names + Lines(rest)
  {
    hide Lines;
    if names == [] {
      assert NameLines(names) + rest == rest;
    } else {
      var more := NameLines(names[1..]) + rest;
      assert NameLines(names) + rest == names[0] + "\n" + more;
      LineFirst(names[0], more);
      NamesAreLines(names[1..], rest);
      assert names == [names[0]] + names[1..];
    }
  }

  function Arrow(c: Copy): string {
    c.from + " => " + c.to
  }

  function Arrows(copies: seq<Copy>): (lines: seq<string>)
    ensures |lines| == |copies|
  {
    seq(|copies|, k requires 0 <= k < |copies| => Arrow(copies[k]))
  }

  lemma {:induction false} CopiesAreLines(copies: seq<Copy>, rest: string)
    requires PlainCopies(copies)
    ensures Lines(CopyLines(copies) + rest) == Arrows(copies) + Lines(rest)
  {
    hide Lines;
    if copies == [] {
      assert CopyLines(copies) + rest == rest;
    } else {
      var more := CopyLines(copies[1..]) + rest;
      assert CopyLines(copies) + rest == Arrow(copies[0]) + "\n" + more;
      LineFirst(Arrow(copies[0]), more);
      CopiesAreLines(copies[1..], rest);
      assert Arrows(copies) == [Arrow(copies[0])] + Arrows(copies[1..]);
    }
  }

  lemma ArrowSplits(c: Copy)
    requires Plain(c.from) && Plain(c.to)
    ensures CopyOf(Arrow(c)) == c && Lacks(Arrow(c), '\n')
  {
    var line := Arrow(c);
    assert forall k :: 0 <= k < |c.from| ==> line[k] == c.from[k];
    FindIs(line, ' ', 0, |c.from|);
    assert line[..|c.from|] == c.from && line[|c.from| + 4..] == c.to;
    assert line[|c.from|..|c.from| + 4] == " => ";
  }

  lemma ArrowsSplit(copies: seq<Copy>)
    requires PlainCopies(copies)
    ensures CopiesOf(Arrows(copies)) == copies
  {
    hide CopyOf, Arrow;
    forall k | 0 <= k < |copies| ensures CopyOf(Arrow(copies[k])) == copies[k] {
      ArrowSplits(copies[k]);
    }
  }

  lemma Regroup(h: string, n1: string, a: string, n2: string, m: string, n3: string, k: string, n4: string, f: string)
    ensures h + (n1 + a + n2 + m + n3 + k) + n4 + f == h + (n1 + (a + (n2 + (m + (n3 + (k + (n4 + f)))))))
  {
    var x := n1 + a + n2 + m + n3;
    Associates(h + (x + k), n4, f);
    Associates(h, x + k, n4 + f);
    Associates(x, k, n4 + f);
    var w := k + (n4 + f);
    Associates(n1 + a + n2 + m, n3, w);
    Associates(n1 + a + n2, m, n3 + w);
    Associates(n1 + a, n2, m + (n3 + w));
    Associates(n1, a, n2 + (m + (n3 + w)));
  }

  // A heading by itself, or after the newline that ends the line before.
  lemma HeadingLine(heading: string, rest: string)
    requires Lacks(heading, '\n')
    ensures Lines((heading + "\n") + rest) == [heading] + Lines(rest)
  {
    LineFirst(heading, rest);
  }

  lemma HeaderLine(h: string, heading: string, rest: string)
    requires Lacks(h, '\n') && Lacks(heading, '\n')
    ensures Lines(h + (("\n" + heading + "\n") + rest)) == [h] + ([heading] + Lines(rest))
  {
    hide Lines;
    LineFirst(heading, rest);
    LineFirst(h, heading + "\n" + rest);
    assert h + (("\n" + heading + "\n") + rest) == h + "\n" + (heading + "\n" + rest);
  }

  // The lines of a whole commit.
  lemma TextHasLines(c: Commit)
    requires PlainCommit(c)
    ensures Lines(Text(c)) ==
            [Header(c.number)] + (["[new_file]"] + (c.added + (["[modified]"] + (c.modified + (["[copied]"]
            + (Arrows(c.copied) + (["(MD5)"] + Lines(FileLines(c.files)))))))))
  {
    hide Lines, NameLines, CopyLines, FileLines, Decimal, Arrows, Header;
    var h, a, m, k, f := Header(c.number), NameLines(c.added), NameLines(c.modified), CopyLines(c.copied),
                         FileLines(c.files);
    Regroup(h, "\n[new_file]\n", a, "[modified]\n", m, "[copied]\n", k, "(MD5)\n", f);
    assert "\n" + "[new_file]" + "\n" == "\n[new_file]\n" && "[modified]" + "\n" == "[modified]\n";
    assert "[copied]" + "\n" == "[copied]\n" && "(MD5)" + "\n" == "(MD5)\n";
    hide Text;
    HeaderIsOneLine(c.number);
    var fourth := "(MD5)\n" + f;
    var third := "[copied]\n" + (k + fourth);
    var second := "[modified]\n" + (m + third);
    HeadingLine("(MD5)", f);
    CopiesAreLines(c.copied, fourth);
    HeadingLine("[copied]", k + fourth);
    NamesAreLines(c.modified, third);
    HeadingLine("[modified]", m + third);
    NamesAreLines(c.added, second);
    HeaderLine(h, "[new_file]", a + second);
  }

  lemma HeaderIsOneLine(number: nat)
    ensures Lacks(Header(number), '\n') && Header(number) != "[new_file]" && Header(number)[0] == '#'
  {
    var h := Header(number);
    assert forall k :: 0 <= k < 9 ==> h[k] == "# commit "[k];
    assert forall k :: 9 <= k < |h| ==> h[k] == Decimal(number)[k - 9];
    assert h[0] == '#' && "[new_file]"[0] == '[';
  }

  // ---------------------------------------------------------------- what is read

  lemma {:induction false} SectionEnds(lines: seq<string>, heading: string, rest: seq<string>)
    requires heading !in lines
    ensures UpTo(lines + [heading] + rest, heading) == lines && Behind(lines + [heading] + rest, heading) == rest
  {
    var all := lines + [heading] + rest;
    if lines == [] {
      assert all[1..] == rest;
    } else {
      assert all[1..] == lines[1..] + [heading] + rest;
      SectionEnds(lines[1..], heading, rest);
    }
  }

  lemma {:induction false} SectionIsCut(lines: seq<string>, heading: string, rest: seq<string>)
    requires heading in lines
    ensures |UpTo(lines + rest, heading)| < |lines|
  {
    if lines[0] != heading {
      assert (lines + rest)[1..] == lines[1..] + rest;
      SectionIsCut(lines[1..], heading, rest);
    }
  }

  lemma {:induction false} ArrowsAreNoHeadings(copies: seq<Copy>, heading: string)
    requires PlainCopies(copies) && Lacks(heading, ' ')
    ensures heading !in Arrows(copies)
  {
    forall k | 0 <= k < |copies| ensures Arrow(copies[k]) != heading {
      assert Arrow(copies[k])[|copies[k].from|] == ' ';
    }
  }

  // No new file is called "[modified]" and no modified one "[copied]".
  ghost predicate NamesNoHeading(c: Commit) {
    "[modified]" !in c.added && "[copied]" !in c.modified
  }

  lemma TitleReadsBack(number: nat, rest: seq<string>)
    ensures NumberIn([Header(number)] + rest) == Some(number)
  {
    hide Decimal;
    ValueOfDecimal(number);
    assert Header(number)[9..] == Decimal(number);
  }

  // The title of a printed commit has its number, and under the three headings stand its
  // new, modified and copied files, if and only if no name is taken for a heading.
  lemma SectionsReadBackIff(c: Commit)
    requires PlainCommit(c)
    ensures Reading(Text(c)) == Report(Some(c.number), c.added, c.modified, c.copied) <==> NamesNoHeading(c)
  {
    hide Text, Lines, Header, UpTo, Behind, PlainCommit, Arrows, CopiesOf, NumberIn;
    var files := Lines(FileLines(c.files));
    var third := ["[copied]"] + Arrows(c.copied) + ["(MD5)"] + files;
    var second := ["[modified]"] + c.modified + third;
    TextHasLines(c);
    StartsAtFirstHeading(c, c.added + second);
    TitleReadsBack(c.number, ["[new_file]"] + (c.added + second));
    var inner := c.added + (["[modified]"] + (c.modified + (["[copied]"] + (Arrows(c.copied) + (["(MD5)"] + files)))));
    assert c.added + second == inner;
    assert Lines(Text(c)) == [Header(c.number)] + ["[new_file]"] + (c.added + second);
    assert Lines(Text(c)) == [Header(c.number)] + (["[new_file]"] + (c.added + second));
    if "[modified]" in c.added {
      SectionIsCut(c.added, "[modified]", second);
    } else {
      assert c.added + second == c.added + ["[modified]"] + (c.modified + third);
      SectionEnds(c.added, "[modified]", c.modified + third);
      if "[copied]" in c.modified {
        SectionIsCut(c.modified, "[copied]", third);
      } else {
        var last := Arrows(c.copied) + ["(MD5)"] + files;
        assert c.modified + third == c.modified + ["[copied]"] + last;
        SectionEnds(c.modified, "[copied]", last);
        CopiesArePlain(c);
        ArrowsAreNoHeadings(c.copied, "(MD5)");
        SectionEnds(Arrows(c.copied), "(MD5)", files);
        ArrowsSplit(c.copied);
      }
    }
  }

  lemma CopiesArePlain(c: Commit)
    requires PlainCommit(c)
    ensures PlainCopies(c.copied)
  {
  }

  lemma StartsAtFirstHeading(c: Commit, rest: seq<string>)
    ensures Behind([Header(c.number)] + ["[new_file]"] + rest, "[new_file]") == rest
  {
    hide Header;
    HeaderIsOneLine(c.number);
    SectionEnds([Header(c.number)], "[new_file]", rest);
  }

  // ---------------------------------------------------------------- whole histories

  // Directories as std::sort leaves them, without names that could be taken for headings.
  ghost predicate Tidy(files: seq<File>) {
    && PlainFiles(files) && Sorted(files) && NamesGiven(files)
    && !Named(files, "[modified]") && !Named(files, "[copied]")
  }

  ghost predicate TidySnapshots(snapshots: seq<seq<File>>) {
    forall k :: 0 <= k < |snapshots| ==> Tidy(snapshots[k])
  }

  // Each commit is what the pass made of the one before it and some directory.
  ghost predicate MadeOf(snapshots: seq<seq<File>>, made: seq<Commit>, k: nat)
    requires k < |made|
  {
    && made[k].files in snapshots
    && made[k] == if k == 0 then FirstCommit(made[0].files) else Compared(k + 1, made[k - 1].files, made[k].files)
  }

  lemma {:induction false} MadeOfSnapshots(snapshots: seq<seq<File>>, k: nat)
    requires k < |Made(snapshots)|
    ensures MadeOf(snapshots, Made(snapshots), k)
  {
    hide Changed;
    var front, files := snapshots[..|snapshots| - 1], snapshots[|snapshots| - 1];
    var made := Made(front);
    if k < |made| {
      MadeOfSnapshots(front, k);
      assert Made(snapshots)[..|made|] == made;
    } else {
      assert files in snapshots;
      ComparedListsAll(|made| + 1, if made == [] then [] else made[|made| - 1].files, files);
    }
  }

  lemma ComparedListsAll(number: nat, past: seq<File>, present: seq<File>)
    ensures Compared(number, past, present).files == present
  {
  }

  lemma SnapshotIsTidy(snapshots: seq<seq<File>>, files: seq<File>)
    requires TidySnapshots(snapshots) && files in snapshots
    ensures Tidy(files)
  {
  }

  lemma ComparedNamesNoHeading(number: nat, past: seq<File>, present: seq<File>)
    requires !Named(present, "[modified]") && !Named(present, "[copied]")
    ensures NamesNoHeading(Compared(number, past, present))
  {
    hide Verdicts, AddedNames, ModifiedNames, Copies;
    var v := Verdicts(past, present, 0, 0);
    AddedLists(v, present, "[modified]");
    ModifiedLists(v, present, "[copied]");
  }

  lemma FirstNamesNoHeading(files: seq<File>)
    requires !Named(files, "[modified]")
    ensures NamesNoHeading(FirstCommit(files))
  {
  }

  // Of the first commit all names stand under [new_file].
  lemma FirstCommitListsAllAsNew(snapshots: seq<seq<File>>)
    requires TidySnapshots(snapshots) && Made(snapshots) != []
    ensures var c := Made(snapshots)[0]; Reading(Text(c)) == Report(Some(1), NamesOf(c.files), [], [])
  {
    hide Tidy, Text, Reading, PlainCommit, Made;
    var c := Made(snapshots)[0];
    TidyIsPlain(snapshots);
    RecordIsTheHistory(snapshots);
    MadeOfSnapshots(snapshots, 0);
    SnapshotIsTidy(snapshots, c.files);
    TidyHasNoHeadings(c.files);
    FirstNamesNoHeading(c.files);
    SectionsReadBackIff(c);
  }

  lemma TidyIsPlain(snapshots: seq<seq<File>>)
    requires TidySnapshots(snapshots)
    ensures PlainSnapshots(snapshots)
  {
    hide PlainFiles, Sorted, NamesGiven, Named;
  }

  lemma TidyHasNoHeadings(files: seq<File>)
    requires Tidy(files)
    ensures !Named(files, "[modified]") && !Named(files, "[copied]") && Sorted(files) && NamesGiven(files)
  {
  }

  // Of every later commit before which nothing was deleted, the names read under each
  // heading are what the heading says: under [new_file] the files with an unseen name and
  // digest, under [modified] those with a known name and another digest, under [copied]
  // those with an unseen name and the digest of the last file they may come from.
  lemma SectionsReadAsDefined(snapshots: seq<seq<File>>, k: nat, j: nat)
    requires TidySnapshots(snapshots) && 0 < k < |Made(snapshots)| && j < |Made(snapshots)[k].files|
    requires NoneDeleted(Made(snapshots)[k - 1].files, Made(snapshots)[k].files)
    ensures var c, past := Made(snapshots)[k], Made(snapshots)[k - 1].files;
      var f, read := c.files[j], Reading(Text(c));
      && read.number == Some(k + 1)
      && (f.name in read.added <==> !Named(past, f.name) && !Digested(past, f.md5))
      && (f.name in read.modified <==> Named(past, f.name) && f !in past)
      && (forall from :: Copy(from, f.name) in read.copied <==>
            !Named(past, f.name) && Digested(past, f.md5) && from == LastWith(past, f.md5))
  {
    hide Tidy, Text, Reading, PlainCommit, Made, Compared, LastWith, NoneDeleted;
    var c, past := Made(snapshots)[k], Made(snapshots)[k - 1].files;
    TidyIsPlain(snapshots);
    RecordIsTheHistory(snapshots);
    MadeOfSnapshots(snapshots, k - 1);
    MadeOfSnapshots(snapshots, k);
    SnapshotIsTidy(snapshots, past);
    SnapshotIsTidy(snapshots, c.files);
    TidyHasNoHeadings(past);
    TidyHasNoHeadings(c.files);
    ComparedNamesNoHeading(k + 1, past, c.files);
    SectionsReadBackIff(c);
    SectionsMeanWhatTheySay(k + 1, past, c.files, j);
  }

  // Nothing else stands there.
  lemma SectionsListOnlyFiles(number: nat, past: seq<File>, present: seq<File>, name: string)
    ensures var c := Compared(number, past, present);
      && (name in c.added || name in c.modified ==> Named(present, name))
      && (forall from :: Copy(from, name) in c.copied ==> Named(present, name))
  {
    hide Verdicts, AddedNames, ModifiedNames, Copies;
    var v := Verdicts(past, present, 0, 0);
    AddedLists(v, present, name);
    ModifiedLists(v, present, name);
    forall from | Copy(from, name) in Copies(v, present) ensures Named(present, name) {
      CopiesList(v, present, Copy(from, name));
    }
  }

  // And the text of the newest commit is what is read from the record.
  lemma NewestIsRead(snapshots: seq<seq<File>>)
    requires PlainSnapshots(snapshots) && RecordAfter(snapshots).Some?
    ensures var made := Made(snapshots);
      made != [] && Fetched(RecordAfter(snapshots).value, 0, 1) == Text(made[|made| - 1])
  {
    hide Text, Fetched, Made, Newest, Join, Parse, RecordAfter, PlainSnapshots;
    RecordReadsBack(snapshots, 1);
    NewestOne(Texts(Made(snapshots)));
  }
}
