/** The record file of the version keeper: how a commit is printed, how the file is read
    backwards, and that nothing is lost on the way. */
module CommitRecord {
  import opened Options

  datatype File = File(name: string, md5: string)

  datatype Copy = Copy(from: string, to: string)

  datatype Commit = Commit(number: nat, added: seq<string>, modified: seq<string>, copied: seq<Copy>, files: seq<File>)

  // ---------------------------------------------------------------- strings

  // std::string::find; the length stands for npos.
  function Find(s: string, c: char, from: nat): (k: nat)
    ensures k <= |s|
    ensures k < |s| ==> from <= k && s[k] == c
    ensures forall j :: from <= j < k ==> s[j] != c
    decreases |s| - from
  {
    if from >= |s| then |s| else if s[from] == c then from else Find(s, c, from + 1)
  }

  lemma {:induction false} FindIs(s: string, c: char, from: nat, k: nat)
    requires from <= k < |s| && s[k] == c && forall j :: from <= j < k ==> s[j] != c
    ensures Find(s, c, from) == k
    decreases k - from
  {
    if from < k {
      FindIs(s, c, from + 1, k);
    }
  }

  ghost predicate Lacks(s: string, c: char) {
    forall k :: 0 <= k < |s| ==> s[k] != c
  }

  function Digit(n: nat): (c: char)
    requires n < 10
    ensures '0' <= c <= '9' && c as nat == '0' as nat + n
  {
    "0123456789"[n]
  }

  function Decimal(n: nat): (s: string)
    ensures s != ""
    ensures forall k :: 0 <= k < |s| ==> '0' <= s[k] <= '9'
  {
    if n < 10 then [Digit(n)] else Decimal(n / 10) + [Digit(n % 10)]
  }

  predicate IsNumber(s: string) {
    s != "" && forall k :: 0 <= k < |s| ==> '0' <= s[k] <= '9'
  }

  function DigitValue(c: char): nat {
    if '0' <= c <= '9' then c as nat - '0' as nat else 0
  }

  function ValueOf(s: string): nat {
    if s == "" then 0 else 10 * ValueOf(s[..|s| - 1]) + DigitValue(s[|s| - 1])
  }

  lemma ValueOfOneMore(s: string, c: char)
    ensures ValueOf(s + [c]) == 10 * ValueOf(s) + DigitValue(c)
  {
    assert (s + [c])[..|s|] == s;
  }

  lemma {:induction false} ValueOfDecimal(n: nat)
    ensures ValueOf(Decimal(n)) == n
  {
    hide Digit;
    if n < 10 {
      assert Decimal(n)[..0] == "";
    } else {
      ValueOfDecimal(n / 10);
      ValueOfOneMore(Decimal(n / 10), Digit(n % 10));
    }
  }

  // A name or digest that does not upset the format.
  ghost predicate Plain(s: string) {
    Lacks(s, ' ') && Lacks(s, '\n') && Lacks(s, '#') && Lacks(s, ')')
  }

  ghost predicate PlainNames(names: seq<string>) {
    forall k :: 0 <= k < |names| ==> Plain(names[k])
  }

  ghost predicate PlainFiles(files: seq<File>) {
    forall k :: 0 <= k < |files| ==> Plain(files[k].name) && Plain(files[k].md5)
  }

  ghost predicate PlainCopies(copies: seq<Copy>) {
    forall k :: 0 <= k < |copies| ==> Plain(copies[k].from) && Plain(copies[k].to)
  }

  ghost predicate PlainCommit(c: Commit) {
    PlainNames(c.added) && PlainNames(c.modified) && PlainCopies(c.copied) && PlainFiles(c.files) && c.files != []
  }

  // ---------------------------------------------------------------- printing

  function NameLines(names: seq<string>): string {
    if names == [] then "" else names[0] + "\n" + NameLines(names[1..])
  }

  function CopyLines(copies: seq<Copy>): string {
    if copies == [] then "" else copies[0].from + " => " + copies[0].to + "\n" + CopyLines(copies[1..])
  }

  function FileLines(files: seq<File>): string {
    if files == [] then "" else files[0].name + " " + files[0].md5 + "\n" + FileLines(files[1..])
  }

  function Header(number: nat): string {
    "# commit " + Decimal(number)
  }

  function Sections(c: Commit): string {
    "\n[new_file]\n" + NameLines(c.added) + "[modified]\n" + NameLines(c.modified) + "[copied]\n" + CopyLines(c.copied)
  }

  function Text(c: Commit): string {
    Header(c.number) + Sections(c) + "(MD5)\n" + FileLines(c.files)
  }

  // ---------------------------------------------------------------- parsing

  function ParseFiles(s: string, begin: nat, end: nat): Option<seq<File>>
    decreases |s| - end
  {
    if !(begin < end < |s|) then None
    else
      var begin' := Find(s, '\n', end);
      if begin' == |s| || begin' == end then None
      else
        var file := File(s[begin + 1..end], s[end + 1..begin']);
        var end' := Find(s, ' ', begin');
        if end' == |s| then Some([file])
        else
          match ParseFiles(s, begin', end')
          case None => None
          case Some(files) => Some([file] + files)
  }

  // None where a find or stoi of the source comes to nothing.
  function Parse(s: string): Option<(nat, seq<File>)> {
    if |s| < 2 then None
    else
      var begin := Find(s, ' ', 2) + 1;
      var end := Find(s, '\n', begin);
      if begin > |s| || end == |s| || !IsNumber(s[begin..end]) then None
      else
        var paren := Find(s, ')', end) + 1;
        match ParseFiles(s, paren, Find(s, ' ', paren))
        case None => None
        case Some(files) => Some((ValueOf(s[begin..end]), files))
  }

  // Where the line of a file, after the newline at b, has its space and its own newline.
  function SpaceOf(b: nat, f: File): nat {
    b + 1 + |f.name|
  }

  function NewlineOf(b: nat, f: File): nat {
    b + 2 + |f.name| + |f.md5|
  }

  ghost predicate LineAt(s: string, b: nat, f: File) {
    && b < NewlineOf(b, f) < |s|
    && s[b] == '\n' && s[SpaceOf(b, f)] == ' ' && s[NewlineOf(b, f)] == '\n'
    && s[b + 1..SpaceOf(b, f)] == f.name && s[SpaceOf(b, f) + 1..NewlineOf(b, f)] == f.md5
  }

  ghost predicate LinesAt(s: string, b: nat, files: seq<File>) {
    b < |s| && s[b] == '\n' && s[b + 1..] == FileLines(files)
  }

  lemma FirstLine(s: string, b: nat, files: seq<File>)
    requires LinesAt(s, b, files) && files != []
    ensures LineAt(s, b, files[0]) && LinesAt(s, NewlineOf(b, files[0]), files[1..])
  {
    var f, rest := files[0], FileLines(files[1..]);
    hide FileLines;
    assert s[b + 1..] == f.name + " " + f.md5 + "\n" + rest by {
      LinesUnfold(files);
    }
    LineSplits(s, b, f, rest);
  }

  lemma LinesUnfold(files: seq<File>)
    requires files != []
    ensures FileLines(files) == files[0].name + " " + files[0].md5 + "\n" + FileLines(files[1..])
  {
  }

  lemma LineSplits(s: string, b: nat, f: File, rest: string)
    requires b < |s| && s[b] == '\n' && s[b + 1..] == f.name + " " + f.md5 + "\n" + rest
    ensures LineAt(s, b, f) && s[NewlineOf(b, f) + 1..] == rest
  {
    var t, n, m := s[b + 1..], |f.name|, |f.md5|;
    assert t[..n] == f.name && t[n] == ' ' && t[n + 1..n + 1 + m] == f.md5 && t[n + 1 + m] == '\n';
    assert t[n + 2 + m..] == rest;
  }

  lemma FindsInLine(s: string, b: nat, f: File)
    requires LineAt(s, b, f) && Plain(f.name) && Plain(f.md5)
    ensures Find(s, ' ', b) == SpaceOf(b, f) && Find(s, '\n', SpaceOf(b, f)) == NewlineOf(b, f)
  {
    var end := SpaceOf(b, f);
    assert forall j :: b + 1 <= j < end ==> s[j] == s[b + 1..end][j - b - 1];
    assert forall j :: end + 1 <= j < NewlineOf(b, f) ==> s[j] == s[end + 1..NewlineOf(b, f)][j - end - 1];
    FindIs(s, ' ', b, end);
    FindIs(s, '\n', end, NewlineOf(b, f));
  }

  lemma ParseOneLine(s: string, b: nat, f: File)
    requires LineAt(s, b, f) && Plain(f.name) && Plain(f.md5)
    ensures var b' := NewlineOf(b, f);
      var rest := ParseFiles(s, b', Find(s, ' ', b'));
      ParseFiles(s, b, SpaceOf(b, f)) ==
        if Find(s, ' ', b') == |s| then Some([f]) else if rest == None then None else Some([f] + rest.value)
  {
    FindsInLine(s, b, f);
    hide Find;
  }

  lemma {:induction false} ParseFilesInvertsLines(s: string, b: nat, files: seq<File>)
    requires LinesAt(s, b, files) && PlainFiles(files) && files != []
    ensures Find(s, ' ', b) < |s| && ParseFiles(s, b, Find(s, ' ', b)) == Some(files)
    decreases |files|
  {
    var f, rest := files[0], files[1..];
    FirstLine(s, b, files);
    FindsInLine(s, b, f);
    ParseOneLine(s, b, f);
    if rest == [] {
      NoMoreSpaces(s, NewlineOf(b, f));
      assert files == [f];
    } else {
      hide Find, ParseFiles, LinesAt, LineAt;
      ParseFilesInvertsLines(s, NewlineOf(b, f), rest);
      assert files == [f] + rest;
    }
  }

  lemma NoMoreSpaces(s: string, b: nat)
    requires LinesAt(s, b, [])
    ensures Find(s, ' ', b) == |s|
  {
    assert |s[b + 1..]| == 0;
  }

  lemma {:induction false} NameLinesLack(names: seq<string>)
    requires PlainNames(names)
    ensures Lacks(NameLines(names), '#') && Lacks(NameLines(names), ')')
  {
    if names != [] {
      NameLinesLack(names[1..]);
    }
  }

  lemma {:induction false} CopyLinesLack(copies: seq<Copy>)
    requires PlainCopies(copies)
    ensures Lacks(CopyLines(copies), '#') && Lacks(CopyLines(copies), ')')
  {
    if copies != [] {
      CopyLinesLack(copies[1..]);
    }
  }

  lemma {:induction false} FileLinesLack(files: seq<File>)
    requires PlainFiles(files)
    ensures Lacks(FileLines(files), '#')
  {
    if files != [] {
      FileLinesLack(files[1..]);
    }
  }

  lemma SectionsLack(c: Commit)
    requires PlainCommit(c)
    ensures Lacks(Sections(c), '#') && Lacks(Sections(c), ')')
  {
    hide NameLines, CopyLines;
    NameLinesLack(c.added);
    NameLinesLack(c.modified);
    CopyLinesLack(c.copied);
  }

  lemma HeaderParts(number: nat, rest: string)
    ensures var s := Header(number) + "\n" + rest;
      var end := |Header(number)|;
      && Find(s, ' ', 2) == 8 && Find(s, '\n', 9) == end && s[9..end] == Decimal(number)
  {
    var s := Header(number) + "\n" + rest;
    var d := Decimal(number);
    assert forall k :: 0 <= k < 9 ==> s[k] == "# commit "[k];
    assert forall k :: 9 <= k < 9 + |d| ==> s[k] == d[k - 9];
    FindIs(s, ' ', 2, 8);
    FindIs(s, '\n', 9, 9 + |d|);
  }

  // The first closing parenthesis after the header is that of "(MD5)".
  lemma ParenAt(c: Commit)
    requires PlainCommit(c)
    ensures var s, b := Text(c), |Header(c.number)| + |Sections(c)| + 5;
      && Find(s, ')', |Header(c.number)|) == b - 1 && LinesAt(s, b, c.files)
  {
    hide Header, Sections, FileLines;
    var s, middle, end := Text(c), Sections(c), |Header(c.number)|;
    SectionsLack(c);
    assert forall k :: end <= k < end + |middle| ==> s[k] == middle[k - end];
    assert forall k :: 0 <= k < 6 ==> s[end + |middle| + k] == "(MD5)\n"[k];
    FindIs(s, ')', end, end + |middle| + 4);
  }

  lemma TextStarts(c: Commit)
    ensures Sections(c) != ""
    ensures Text(c) == Header(c.number) + "\n" + (Sections(c)[1..] + "(MD5)\n" + FileLines(c.files))
  {
    hide Header, FileLines, NameLines, CopyLines;
    var m := Sections(c);
    assert m[0] == '\n';
    assert m == "\n" + m[1..];
  }

  lemma NumberAt(c: Commit)
    ensures var s, end := Text(c), |Header(c.number)|;
      && |s| > 9 && Find(s, ' ', 2) == 8 && Find(s, '\n', 9) == end < |s| && s[9..end] == Decimal(c.number)
  {
    hide Decimal, FileLines, Text, Sections, Find;
    TextStarts(c);
    HeaderParts(c.number, Sections(c)[1..] + "(MD5)\n" + FileLines(c.files));
  }

  // Reading a printed commit gives back its number and its list of files.
  lemma ParseInvertsText(c: Commit)
    requires PlainCommit(c)
    ensures Parse(Text(c)) == Some((c.number, c.files))
  {
    hide Text, Header, Sections, ParseFiles, Decimal, ValueOf, Find, LinesAt;
    NumberAt(c);
    ParenAt(c);
    ValueOfDecimal(c.number);
    ParseFilesInvertsLines(Text(c), |Header(c.number)| + |Sections(c)| + 5, c.files);
  }

  // ---------------------------------------------------------------- reading backwards

  // Commits are separated by one newline on top of the one that ends each.
  function Join(texts: seq<string>): string {
    if texts == [] then ""
    else if |texts| == 1 then texts[0]
    else texts[0] + "\n" + Join(texts[1..])
  }

  function Reversed<T>(s: seq<T>): (r: seq<T>)
    ensures |r| == |s|
  {
    if s == [] then [] else Reversed(s[1..]) + [s[0]]
  }

  // The last '#' of a text that has one.
  function LastHash(d: string): (q: nat)
    ensures d != "" ==> q < |d|
    ensures 0 < q < |d| ==> d[q] == '#'
    ensures forall k :: q < k < |d| ==> d[k] != '#'
  {
    if |d| <= 1 then 0 else if d[|d| - 1] == '#' then |d| - 1 else LastHash(d[..|d| - 1])
  }

  // What fetch_record appends in rounds i to number - 1, when the file up to and
  // including the cursor is d. Position 0 means the beginning is reached.
  function Fetched(d: string, i: nat, number: nat): string
    decreases |d|
  {
    if i >= number || |d| <= 1 then ""
    else
      var q := LastHash(d);
      Separator(i) + d[q..] + Fetched(d[..Before(q)], i + 1, number)
  }

  function Separator(i: nat): string {
    if i != 0 then "\n" else ""
  }

  // Skipping the newline in front of a commit; at the start of the file the seek fails.
  function Before(q: nat): nat {
    if q >= 2 then q - 1 else 0
  }

  ghost predicate HasHash(d: string) {
    exists k :: 0 <= k < |d| && d[k] == '#'
  }

  // Every round that starts, starts at or behind a '#'.
  ghost predicate RoundsEnd(d: string, i: nat, number: nat)
    decreases |d|
  {
    i >= number || |d| <= 1 || (HasHash(d) && RoundsEnd(d[..Before(LastHash(d))], i + 1, number))
  }

  // A record that begins with '#' has one behind every position.
  lemma {:induction false} RecordsEnd(d: string, i: nat, number: nat)
    requires d != "" ==> d[0] == '#'
    ensures RoundsEnd(d, i, number)
    decreases |d|
  {
    if i < number && |d| > 1 {
      assert HasHash(d);
      RecordsEnd(d[..Before(LastHash(d))], i + 1, number);
    }
  }

  // Where the n-th byte of a round is read that starts at pos: one back each time, except
  // that at the beginning the seek fails and the byte after is read next.
  function ReadAt(pos: nat, n: nat): nat {
    if n == 0 then pos
    else if ReadAt(pos, n - 1) > 0 then ReadAt(pos, n - 1) - 1
    else 1
  }

  lemma {:induction false} ReadsBackwards(pos: nat, n: nat)
    ensures n <= pos ==> ReadAt(pos, n) == pos - n
    ensures n >= pos ==> ReadAt(pos, n) == (n - pos) % 2
    ensures pos > 0 ==> ReadAt(pos, n) <= pos
  {
    if n > 0 {
      ReadsBackwards(pos, n - 1);
    }
  }

  // So a round comes to its end if and only if there is a '#' at or before the cursor.
  lemma RoundEndsIff(data: string, pos: nat)
    requires 0 < pos < |data|
    ensures (exists n: nat :: ReadAt(pos, n) < |data| && data[ReadAt(pos, n)] == '#') <==> HasHash(data[..pos + 1])
  {
    if exists n: nat :: ReadAt(pos, n) < |data| && data[ReadAt(pos, n)] == '#' {
      var n: nat :| ReadAt(pos, n) < |data| && data[ReadAt(pos, n)] == '#';
      ReadsBackwards(pos, n);
      assert data[..pos + 1][ReadAt(pos, n)] == '#';
    }
    if HasHash(data[..pos + 1]) {
      var k :| 0 <= k < pos + 1 && data[..pos + 1][k] == '#';
      ReadsBackwards(pos, pos - k);
      assert data[ReadAt(pos, pos - k)] == '#';
    }
  }

  ghost predicate CommitText(t: string) {
    |t| >= 2 && t[0] == '#' && forall k :: 1 <= k < |t| ==> t[k] != '#'
  }

  ghost predicate CommitTexts(texts: seq<string>) {
    forall k :: 0 <= k < |texts| ==> CommitText(texts[k])
  }

  lemma {:induction false} JoinMore(texts: seq<string>, t: string)
    ensures Join(texts + [t]) == if texts == [] then t else Join(texts) + "\n" + t
  {
    if |texts| == 1 {
      assert (texts + [t])[1..] == [t];
    } else if |texts| > 1 {
      JoinMore(texts[1..], t);
      assert (texts + [t])[1..] == texts[1..] + [t];
    }
  }

  lemma {:induction false} JoinStarts(texts: seq<string>)
    requires CommitTexts(texts) && texts != []
    ensures |Join(texts)| >= 2 && Join(texts)[0] == '#'
  {
    assert CommitText(texts[0]);
  }

  lemma LastHashIs(d: string, q: nat)
    requires q < |d| && (q > 0 ==> d[q] == '#') && forall k :: q < k < |d| ==> d[k] != '#'
    ensures LastHash(d) == q
  {
  }

  lemma {:induction false} ReversedMore<T>(s: seq<T>, x: T)
    ensures Reversed(s + [x]) == [x] + Reversed(s)
  {
    if s != [] {
      assert (s + [x])[1..] == s[1..] + [x];
      ReversedMore(s[1..], x);
    }
  }

  function Least(m: nat, n: nat): nat {
    if m < n then m else n
  }

  // The last commits, newest first.
  function Newest(texts: seq<string>, n: nat): seq<string> {
    Reversed(texts)[..Least(n, |texts|)]
  }

  lemma NewestMore(front: seq<string>, t: string, n: nat)
    requires n > 0
    ensures Newest(front + [t], n) == [t] + Newest(front, n - 1)
  {
    ReversedMore(front, t);
  }

  lemma FetchUnfolds(d: string, i: nat, number: nat)
    requires |d| > 1 && i < number
    ensures var q := LastHash(d);
      Fetched(d, i, number) == Separator(i) + d[q..] + Fetched(d[..Before(q)], i + 1, number)
  {
  }

  lemma EndsInCommit(before: string, t: string)
    requires CommitText(t)
    ensures LastHash(before + t) == |before|
  {
    var d := before + t;
    assert forall k :: |before| <= k < |d| ==> d[k] == t[k - |before|];
    LastHashIs(d, |before|);
  }

  lemma FetchOne(front: seq<string>, t: string, i: nat, number: nat)
    requires CommitTexts(front) && CommitText(t) && i < number
    ensures Fetched(Join(front + [t]), i, number) == Separator(i) + t + Fetched(Join(front), i + 1, number)
  {
    JoinMore(front, t);
    if front == [] {
      EndsInCommit("", t);
      assert "" + t == t;
      FetchUnfolds(t, i, number);
    } else {
      JoinStarts(front);
      hide Join, LastHash, Fetched, Separator;
      var before := Join(front) + "\n";
      EndsInCommit(before, t);
      FetchUnfolds(before + t, i, number);
      assert (before + t)[|before|..] == t;
      assert (before + t)[..|before| - 1] == Join(front);
    }
  }

  lemma {:induction false} FetchedIsNewest(texts: seq<string>, i: nat, number: nat)
    requires CommitTexts(texts) && i <= number
    ensures Fetched(Join(texts), i, number) ==
            (if i < number && texts != [] then Separator(i) else "") + Join(Newest(texts, number - i))
    decreases |texts|
  {
    if texts == [] || i == number {
      assert Newest(texts, number - i) == [];
    } else {
      var front, t := texts[..|texts| - 1], texts[|texts| - 1];
      assert texts == front + [t];
      FetchedIsNewest(front, i + 1, number);
      FetchMore(front, t, i, number);
    }
  }

  lemma FetchMore(front: seq<string>, t: string, i: nat, number: nat)
    requires CommitTexts(front) && CommitText(t) && i < number
    requires var later := if i + 1 < number && front != [] then Separator(i + 1) else "";
      Fetched(Join(front), i + 1, number) == later + Join(Newest(front, number - i - 1))
    ensures Fetched(Join(front + [t]), i, number) == Separator(i) + Join(Newest(front + [t], number - i))
  {
    hide Join, Fetched, Separator, Newest, CommitTexts;
    FetchOne(front, t, i, number);
    NewestMore(front, t, number - i);
    JoinNewest(front, t, number - i - 1, i + 1);
    Associates(Separator(i), t, Fetched(Join(front), i + 1, number));
  }

  lemma Associates(a: string, b: string, c: string)
    ensures a + b + c == a + (b + c)
  {
  }

  lemma JoinNewest(front: seq<string>, t: string, n: nat, i: nat)
    requires i > 0
    ensures Join([t] + Newest(front, n)) ==
            t + ((if n > 0 && front != [] then Separator(i) else "") + Join(Newest(front, n)))
  {
    JoinFirst(t, Newest(front, n));
  }

  lemma JoinFirst(t: string, rest: seq<string>)
    ensures Join([t] + rest) == if rest == [] then t else t + "\n" + Join(rest)
  {
    assert ([t] + rest)[1..] == rest;
  }

  // log n prints the last min(n, total) commits, newest first, with one blank line
  // between them.
  lemma LogPrintsTheNewest(texts: seq<string>, number: nat)
    requires CommitTexts(texts)
    ensures Fetched(Join(texts), 0, number) == Join(Newest(texts, number))
  {
    FetchedIsNewest(texts, 0, number);
  }

  lemma PrintedCommitIsText(c: Commit)
    requires PlainCommit(c)
    ensures CommitText(Text(c)) && Text(c)[|Text(c)| - 1] == '\n'
  {
    hide Sections, Decimal;
    SectionsLack(c);
    FileLinesLack(c.files);
    FileLinesEnd(c.files);
    var s, h, m := Text(c), "# commit " + Decimal(c.number), Sections(c);
    assert forall k :: 1 <= k < |h| ==> h[k] != '#';
  }

  lemma {:induction false} FileLinesEnd(files: seq<File>)
    requires files != []
    ensures FileLines(files) != "" && FileLines(files)[|FileLines(files)| - 1] == '\n'
  {
    if |files| > 1 {
      FileLinesEnd(files[1..]);
    }
  }
}
