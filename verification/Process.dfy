/** The process table, from the concatenated `/proc/<pid>/stat` files. */
module Process {
  import opened Common
  import opened Text
  import opened Sorting
  import Decimal

  const MAX_PROCESSES: nat := 256

  datatype ProcessStat = ProcessStat(pid: nat, comm: string, state: char, cpuTicks: nat, rssPages: nat)

  /** A positional field after the closing parenthesis; field 3 comes first, absent ones read as 0. */
  function Field(rest: seq<string>, field: nat): string
    requires field >= 3
  {
    if field - 3 < |rest| then rest[field - 3] else "0"
  }

  function Number(rest: seq<string>, field: nat): nat
    requires field >= 3
  {
    match Decimal.Parse(Field(rest, field), U64_MAX)
    case Some(n) => n
    case None => 0
  }

  function ParseLine(line: string): Option<ProcessStat> {
    match (Find(line, '('), FindLast(line, ')'))
    case (Some(open), Some(close)) =>
      if close < open then None
      else (
        match Decimal.Parse(Trim(line[..open]), U32_MAX)
        case None => None
        case Some(pid) =>
          Some(FromFields(pid, line[open + 1..close], Words(line[close + 1..]))))
    case _ => None
  }

  function FromFields(pid: nat, comm: string, rest: seq<string>): ProcessStat {
    ProcessStat(pid, comm, if Field(rest, 3) == "" then '?' else Field(rest, 3)[0],
                SaturatingAdd(Number(rest, 14), Number(rest, 15), U64_MAX), Number(rest, 24))
  }

  function ParseLines(lines: seq<string>): seq<ProcessStat> {
    FilterMap(lines, ParseLine)
  }

  method ParseProcessStats(text: string) returns (out: seq<ProcessStat>)
    ensures out == ParseLines(Lines(text))
  {
    out := [];
    var lines := Lines(text);
    assert lines[..0] == [];
    for n := 0 to |lines|
      invariant out == ParseLines(lines[..n])
    {
      FilterMapSnoc(lines, ParseLine, n);
      var stat := ParseLine(lines[n]);
      if stat == None {
        continue;
      }
      out := out + [stat.value];
    }
    assert lines[..|lines|] == lines;
  }

  // ---------------------------------------------------------------------------------------
  // What the kernel prints

  /** A process as proc_pid_stat(5) lays it out; fields nobody reads are kept as printed. */
  datatype KernelProcess = KernelProcess(
    pid: U32,
    comm: string,
    state: char,
    fields4to13: seq<string>,
    utime: U64,
    stime: U64,
    fields16to23: seq<string>,
    rss: U64,
    rest: seq<string>)

  /** A printed field: not empty, and neither whitespace nor a parenthesis in it. */
  predicate IsWord(w: string) {
    w != "" && forall c :: c in w ==> !IsWhitespace(c) && c != ')'
  }

  predicate AllWords(words: seq<string>) {
    forall w :: w in words ==> IsWord(w)
  }

  predicate WellFormed(p: KernelProcess) {
    && IsWord([p.state])
    && |p.fields4to13| == 10 && AllWords(p.fields4to13)
    && |p.fields16to23| == 8 && AllWords(p.fields16to23)
    && AllWords(p.rest)
  }

  /** Everything after the name, field 3 first. */
  function Tail(p: KernelProcess): seq<string> {
    [[p.state]] + p.fields4to13 + [Decimal.Print(p.utime), Decimal.Print(p.stime)]
    + p.fields16to23 + [Decimal.Print(p.rss)] + p.rest
  }

  function StatLine(p: KernelProcess): string {
    Decimal.Print(p.pid) + " (" + p.comm + ") " + Join(Tail(p), ' ')
  }

  function Table(processes: seq<KernelProcess>): string {
    if processes == [] then "" else StatLine(processes[0]) + "\n" + Table(processes[1..])
  }

  /** What the monitor should make of it. */
  function Reading(p: KernelProcess): ProcessStat {
    ProcessStat(p.pid, p.comm, p.state, if p.utime + p.stime > U64_MAX then U64_MAX else p.utime + p.stime, p.rss)
  }

  function Readings(processes: seq<KernelProcess>): seq<ProcessStat> {
    if processes == [] then [] else [Reading(processes[0])] + Readings(processes[1..])
  }

  lemma {:induction false} JoinedWordsAreClean(words: seq<string>)
    requires AllWords(words)
    ensures forall c :: c in Join(words, ' ') ==> c == ' ' || (!IsWhitespace(c) && c != ')')
    ensures Join(words, ' ') != "" ==> !IsWhitespace(Join(words, ' ')[|Join(words, ' ')| - 1])
    ensures words != [] ==> Join(words, ' ') != ""
  {
    if words != [] {
      assert words[0] in words && IsWord(words[0]);
      assert words[0][|words[0]| - 1] in words[0];
      if |words| > 1 {
        assert forall w :: w in words[1..] ==> w in words;
        JoinedWordsAreClean(words[1..]);
      }
    }
  }

  lemma {:induction false} WordThenSpace(w: string, rest: string)
    requires forall c :: c in w ==> !IsWhitespace(c)
    requires rest == "" || IsWhitespace(rest[0])
    ensures Word(w + rest) == w
  {
    if w == "" {
      assert w + rest == rest;
    } else {
      assert w[0] in w && (w + rest)[1..] == w[1..] + rest;
      assert forall c :: c in w[1..] ==> c in w;
      WordThenSpace(w[1..], rest);
      assert w == [w[0]] + w[1..];
    }
  }

  lemma TrimStartSpace(prefix: string, s: string)
    requires (prefix == "" || prefix == " ") && (s == "" || !IsWhitespace(s[0]))
    ensures TrimStart(prefix + s) == s
  {
    if prefix == " " {
      assert (prefix + s)[1..] == s;
    } else {
      assert prefix + s == s;
    }
  }

  /** What follows the first of joined words: nothing, or a space and the rest. */
  function AfterFirst(words: seq<string>): string
    requires words != []
  {
    if |words| == 1 then "" else [' '] + Join(words[1..], ' ')
  }

  lemma JoinHead(words: seq<string>)
    requires words != []
    ensures Join(words, ' ') == words[0] + AfterFirst(words)
  {
    if |words| == 1 {
      assert words[0] + "" == words[0];
    } else {
      Associative(words[0], [' '], Join(words[1..], ' '));
    }
  }

  /** One word is taken off the front. */
  lemma WordsStep(s: string, w: string, more: string)
    requires IsWord(w) && TrimStart(s) == w + more && (more == "" || IsWhitespace(more[0]))
    ensures Words(s) == [w] + Words(more)
  {
    WordThenSpace(w, more);
    assert (w + more)[|w|..] == more;
  }

  lemma {:induction false} WordsOfJoin(words: seq<string>, prefix: string)
    requires AllWords(words) && (prefix == "" || prefix == " ")
    ensures Words(prefix + Join(words, ' ')) == words
    decreases |words|, 1
  {
    if words == [] {
      TrimStartSpace(prefix, "");
    } else {
      var w := words[0];
      assert w in words && IsWord(w) && w[0] in w;
      JoinHead(words);
      TrimStartSpace(prefix, w + AfterFirst(words));
      WordsStep(prefix + Join(words, ' '), w, AfterFirst(words));
      WordsAfterFirst(words);
      assert words == [w] + words[1..];
    }
  }

  lemma {:induction false} WordsAfterFirst(words: seq<string>)
    requires words != [] && AllWords(words)
    ensures Words(AfterFirst(words)) == words[1..]
    decreases |words|, 0
  {
    if |words| > 1 {
      assert forall v :: v in words[1..] ==> v in words;
      WordsOfJoin(words[1..], " ");
    }
  }

  lemma FindLastIs(s: string, c: char, i: nat)
    requires i < |s| && s[i] == c && forall j :: i < j < |s| ==> s[j] != c
    ensures FindLast(s, c) == Some(i)
  {
  }

  lemma TailIsWords(p: KernelProcess)
    requires WellFormed(p)
    ensures AllWords(Tail(p)) && |Tail(p)| >= 22
    ensures Tail(p)[0] == [p.state]
    ensures Tail(p)[11] == Decimal.Print(p.utime) && Tail(p)[12] == Decimal.Print(p.stime)
    ensures Tail(p)[21] == Decimal.Print(p.rss)
  {
    Decimal.PrintIsAWord(p.utime);
    Decimal.PrintIsAWord(p.stime);
    Decimal.PrintIsAWord(p.rss);
  }

  /** The text before the opening parenthesis, and the text after the closing one. */
  function Before(p: KernelProcess): string {
    Decimal.Print(p.pid) + " "
  }

  function After(p: KernelProcess): string {
    " " + Join(Tail(p), ' ')
  }

  lemma LineParts(p: KernelProcess)
    ensures StatLine(p) == Before(p) + "(" + p.comm + ")" + After(p)
  {
    assert ") " == ")" + " " && " (" == " " + "(";
  }

  lemma NoParenthesisAround(p: KernelProcess)
    requires WellFormed(p)
    ensures '(' !in Before(p) && ')' !in After(p)
  {
    Decimal.PrintIsAWord(p.pid);
    TailIsWords(p);
    JoinedWordsAreClean(Tail(p));
  }

  /** The first opening and the last closing parenthesis enclose exactly the middle. */
  lemma Enclosed(before: string, middle: string, after: string)
    requires '(' !in before && ')' !in after
    ensures var line, open, close := before + "(" + middle + ")" + after, |before|, |before| + 1 + |middle|;
      && Find(line, '(') == Some(open) && FindLast(line, ')') == Some(close) && close < |line|
      && line[..open] == before && line[open + 1..close] == middle && line[close + 1..] == after
  {
    var line, open, close := before + "(" + middle + ")" + after, |before|, |before| + 1 + |middle|;
    forall j | 0 <= j < open ensures line[j] != '(' {
      assert line[j] == before[j];
    }
    IndexOfIs(line, '(', open);
    forall j | close < j < |line| ensures line[j] != ')' {
      assert line[j] == after[j - close - 1];
    }
    FindLastIs(line, ')', close);
  }

  lemma PidFieldTrims(n: nat)
    ensures Trim(Decimal.Print(n) + " ") == Decimal.Print(n)
  {
    var pid := Decimal.Print(n);
    Decimal.PrintIsAWord(n);
    assert pid[0] in pid && pid[|pid| - 1] in pid;
    assert TrimStart(pid + " ") == pid + " ";
    assert (pid + " ")[..|pid|] == pid;
    assert TrimEnd(pid) == pid;
  }

  lemma PidIsRead(p: KernelProcess)
    ensures Decimal.Parse(Trim(Before(p)), U32_MAX) == Some(p.pid)
  {
    PidFieldTrims(p.pid);
    Decimal.ParsePrint(p.pid, U32_MAX);
  }

  lemma FieldsAreRead(p: KernelProcess)
    requires WellFormed(p)
    ensures var rest := Words(After(p));
      && Field(rest, 3) == [p.state]
      && Number(rest, 14) == p.utime && Number(rest, 15) == p.stime && Number(rest, 24) == p.rss
  {
    TailIsWords(p);
    WordsOfJoin(Tail(p), " ");
    Decimal.ParsePrint(p.utime, U64_MAX);
    Decimal.ParsePrint(p.stime, U64_MAX);
    Decimal.ParsePrint(p.rss, U64_MAX);
  }

  lemma ParseEnclosed(before: string, middle: string, after: string, pid: nat)
    requires '(' !in before && ')' !in after && Decimal.Parse(Trim(before), U32_MAX) == Some(pid)
    ensures ParseLine(before + "(" + middle + ")" + after) == Some(FromFields(pid, middle, Words(after)))
  {
    Enclosed(before, middle, after);
  }

  /** What a line is cut short of reads as zero, so a process whose size is missing is not listed. */
  lemma MissingFieldsReadZero(pid: nat, comm: string, rest: seq<string>)
    ensures |rest| < 22 ==> FromFields(pid, comm, rest).rssPages == 0
    ensures |rest| < 12 ==> FromFields(pid, comm, rest).cpuTicks == 0
  {
    assert Decimal.Parse("0", U64_MAX) == Some(0) by {
      assert Decimal.Print(0) == "0";
      Decimal.ParsePrint(0, U64_MAX);
    }
  }

  /** One kernel line is read back exactly, whatever spaces and parentheses the name holds. */
  lemma LineRoundTrip(p: KernelProcess)
    requires WellFormed(p)
    ensures ParseLine(StatLine(p)) == Some(Reading(p))
  {
    LineParts(p);
    NoParenthesisAround(p);
    PidIsRead(p);
    ParseEnclosed(Before(p), p.comm, After(p), p.pid);
    FieldsAreRead(p);
    FieldsMakeReading(p, Words(After(p)));
  }

  lemma FieldsMakeReading(p: KernelProcess, rest: seq<string>)
    requires Field(rest, 3) == [p.state]
    requires Number(rest, 14) == p.utime && Number(rest, 15) == p.stime && Number(rest, 24) == p.rss
    ensures FromFields(p.pid, p.comm, rest) == Reading(p)
  {
  }

  /** A process id, and after it a name between the first opening and the last closing parenthesis. */
  ghost predicate NamesProcess(line: string, open: int, close: int, pid: nat) {
    && 0 <= open < close < |line|
    && line[open] == '(' && (forall i :: 0 <= i < open ==> line[i] != '(')
    && line[close] == ')' && (forall i :: close < i < |line| ==> line[i] != ')')
    && Decimal.Parse(Trim(line[..open]), U32_MAX) == Some(pid)
  }

  /** A line is read exactly if it names a process; what is between the parentheses is the name. */
  lemma ReadIff(line: string, open: int, close: int, pid: nat)
    ensures NamesProcess(line, open, close, pid)
       <==> && Find(line, '(') == Some(open) && FindLast(line, ')') == Some(close) && open < close
            && ParseLine(line) == Some(FromFields(pid, line[open + 1..close], Words(line[close + 1..])))
            && Decimal.Parse(Trim(line[..open]), U32_MAX) == Some(pid)
  {
    if NamesProcess(line, open, close, pid) {
      IndexOfIs(line, '(', open);
      FindLastIs(line, ')', close);
    }
  }

  /** Every other line is skipped. */
  lemma SkippedIff(line: string)
    ensures ParseLine(line) == None <==> forall open, close, pid :: !NamesProcess(line, open, close, pid)
  {
    if open, close, pid :| NamesProcess(line, open, close, pid) {
      ReadIff(line, open, close, pid);
    }
    if ParseLine(line).Some? {
      var open, close := Find(line, '(').value, FindLast(line, ')').value;
      ReadIff(line, open, close, Decimal.Parse(Trim(line[..open]), U32_MAX).value);
    }
  }

  lemma LineHasNoNewline(p: KernelProcess)
    requires WellFormed(p) && '\n' !in p.comm
    ensures '\n' !in StatLine(p) && StatLine(p) != "" && StatLine(p)[|StatLine(p)| - 1] != '\r'
  {
    var tail := Join(Tail(p), ' ');
    TailIsWords(p);
    JoinedWordsAreClean(Tail(p));
    Decimal.PrintIsAWord(p.pid);
    assert StatLine(p)[|StatLine(p)| - 1] == tail[|tail| - 1];
  }

  lemma FirstLine(line: string, rest: string)
    requires '\n' !in line && line != "" && line[|line| - 1] != '\r'
    ensures Lines(line + "\n" + rest) == [line] + Lines(rest)
  {
    var s := line + "\n" + rest;
    forall j | 0 <= j < |line| ensures s[j] != '\n' {
      assert s[j] == line[j];
    }
    IndexOfIs(s, '\n', |line|);
    assert s[..|line|] == line && s[|line| + 1..] == rest;
    assert s[|line| - 1] == line[|line| - 1];
  }

  /** Printing any list of newline-free names in the kernel's layout and parsing it gives the list back. */
  lemma {:induction false} TableParsesBack(processes: seq<KernelProcess>)
    requires forall p :: p in processes ==> WellFormed(p) && '\n' !in p.comm
    ensures ParseLines(Lines(Table(processes))) == Readings(processes)
  {
    if processes != [] {
      var p := processes[0];
      assert p in processes;
      assert forall q :: q in processes[1..] ==> q in processes;
      TableParsesBack(processes[1..]);
      LineHasNoNewline(p);
      FirstLine(StatLine(p), Table(processes[1..]));
      LineRoundTrip(p);
      FilterMapCons(StatLine(p), Lines(Table(processes[1..])), ParseLine);
    }
  }

  lemma {:induction false} LinesHaveNoNewline(text: string, line: string)
    requires line in Lines(text)
    ensures '\n' !in line
    decreases |text|
  {
    var i := IndexOf(text, '\n');
    if i < |text| && line in Lines(text[i + 1..]) {
      LinesHaveNoNewline(text[i + 1..], line);
    }
  }

  /** Whatever the text, no parsed name contains a newline. */
  lemma ParsedNamesHaveNoNewline(text: string, stat: ProcessStat)
    requires stat in ParseLines(Lines(text))
    ensures '\n' !in stat.comm
  {
    var line := FilterMapFrom(Lines(text), ParseLine, stat);
    LinesHaveNoNewline(text, line);
  }

  lemma {:induction false} ReadingsKeepNames(processes: seq<KernelProcess>, p: KernelProcess)
    requires p in processes
    ensures Reading(p) in Readings(processes)
  {
    if p != processes[0] {
      ReadingsKeepNames(processes[1..], p);
    }
  }

  /**
   A process list printed in the kernel's layout is read back exactly, in order, if and only if no
   name contains a newline; spaces and parentheses never matter.
   */
  lemma TableRoundTrip(processes: seq<KernelProcess>)
    requires forall p :: p in processes ==> WellFormed(p)
    ensures ParseLines(Lines(Table(processes))) == Readings(processes)
       <==> forall p :: p in processes ==> '\n' !in p.comm
  {
    if forall p :: p in processes ==> '\n' !in p.comm {
      TableParsesBack(processes);
    } else {
      var p :| p in processes && '\n' in p.comm;
      ReadingsKeepNames(processes, p);
      if ParseLines(Lines(Table(processes))) == Readings(processes) {
        ParsedNamesHaveNoNewline(Table(processes), Reading(p));
      }
    }
  }

  // ---------------------------------------------------------------------------------------
  // Which processes are kept

  function Resident(processes: seq<ProcessStat>): seq<ProcessStat> {
    if processes == [] then []
    else
      var n := |processes| - 1;
      if processes[n].rssPages > 0 then Resident(processes[..n]) + [processes[n]] else Resident(processes[..n])
  }

  predicate LargerFirst(a: ProcessStat, b: ProcessStat) {
    a.rssPages >= b.rssPages
  }

  function Truncate<T>(s: seq<T>, n: nat): seq<T> {
    if |s| <= n then s else s[..n]
  }

  /** `retain`, `sort_by` descending resident memory, `truncate`. */
  method Select(processes: seq<ProcessStat>) returns (kept: seq<ProcessStat>)
    ensures kept == Truncate(Sorted(Resident(processes), LargerFirst), MAX_PROCESSES)
  {
    kept := [];
    assert processes[..0] == [];
    for n := 0 to |processes|
      invariant kept == Resident(processes[..n])
    {
      assert processes[..n + 1][..n] == processes[..n];
      if processes[n].rssPages > 0 {
        kept := kept + [processes[n]];
      }
    }
    assert processes[..|processes|] == processes;
    kept := Sorted(kept, LargerFirst);
    kept := Truncate(kept, MAX_PROCESSES);
  }

  /** The processes of this size. */
  function OfSize(pages: nat): ProcessStat -> Option<ProcessStat> {
    (p: ProcessStat) => if p.rssPages == pages then Some(p) else None
  }

  lemma {:induction false} ResidentAre(processes: seq<ProcessStat>)
    ensures forall p :: p in Resident(processes) ==> p.rssPages > 0
    ensures forall pages: nat | pages > 0 ::
              FilterMap(Resident(processes), OfSize(pages)) == FilterMap(processes, OfSize(pages))
  {
    if processes != [] {
      var n := |processes| - 1;
      ResidentAre(processes[..n]);
      forall pages: nat | pages > 0
        ensures FilterMap(Resident(processes), OfSize(pages)) == FilterMap(processes, OfSize(pages))
      {
        FilterMapPush(Resident(processes[..n]), processes[n], OfSize(pages));
        assert processes == processes[..n] + [processes[n]];
        FilterMapPush(processes[..n], processes[n], OfSize(pages));
      }
    }
  }

  lemma {:induction false} PrefixKeepsPrefix<T, U>(s: seq<T>, n: nat, f: T -> Option<U>)
    requires n <= |s|
    ensures FilterMap(s[..n], f) <= FilterMap(s, f)
  {
    FilterMapConcat(s[..n], s[n..], f);
    assert s == s[..n] + s[n..];
  }

  /**
   What the table lists: the resident processes, largest first and processes of one size in the order they
   were read, cut off after 256. Nothing without resident memory is listed.
   */
  lemma TableListsTheLargest(processes: seq<ProcessStat>)
    ensures var kept := Truncate(Sorted(Resident(processes), LargerFirst), MAX_PROCESSES);
      && |kept| <= 256
      && (forall p :: p in kept ==> p in processes && p.rssPages > 0)
      && (forall a, b :: 0 <= a < b < |kept| ==> kept[a].rssPages >= kept[b].rssPages)
      && (forall pages: nat | pages > 0 :: FilterMap(kept, OfSize(pages)) <= FilterMap(processes, OfSize(pages)))
      && (|kept| < 256 ==> forall p :: p in processes && p.rssPages > 0 ==> p in kept)
  {
    KeptAreResident(processes);
    KeptAreSorted(processes);
    KeptAreInOrder(processes);
  }

  lemma KeptAreSorted(processes: seq<ProcessStat>)
    ensures var kept := Truncate(Sorted(Resident(processes), LargerFirst), MAX_PROCESSES);
      |kept| <= 256 && forall a, b :: 0 <= a < b < |kept| ==> kept[a].rssPages >= kept[b].rssPages
  {
    SortSorts(Resident(processes), LargerFirst);
  }

  lemma KeptAreInOrder(processes: seq<ProcessStat>)
    ensures var kept := Truncate(Sorted(Resident(processes), LargerFirst), MAX_PROCESSES);
      forall pages: nat | pages > 0 :: FilterMap(kept, OfSize(pages)) <= FilterMap(processes, OfSize(pages))
  {
    var all := Sorted(Resident(processes), LargerFirst);
    var kept := Truncate(all, MAX_PROCESSES);
    ResidentAre(processes);
    forall pages: nat | pages > 0 ensures FilterMap(kept, OfSize(pages)) <= FilterMap(processes, OfSize(pages)) {
      SortIsStable(Resident(processes), LargerFirst, OfSize(pages));
      PrefixKeepsPrefix(all, |kept|, OfSize(pages));
    }
  }

  lemma KeptAreResident(processes: seq<ProcessStat>)
    ensures var kept := Truncate(Sorted(Resident(processes), LargerFirst), MAX_PROCESSES);
      && (forall p :: p in kept ==> p in processes && p.rssPages > 0)
      && (|kept| < 256 ==> forall p :: p in processes && p.rssPages > 0 ==> p in kept)
  {
    var all := Sorted(Resident(processes), LargerFirst);
    var kept := Truncate(all, MAX_PROCESSES);
    SortKeepsItems(Resident(processes), LargerFirst);
    forall p | p in kept ensures p in processes && p.rssPages > 0 {
      assert p in multiset(all);
      ResidentIff(processes, p);
    }
    if |kept| < 256 {
      forall p | p in processes && p.rssPages > 0 ensures p in kept {
        ResidentIff(processes, p);
        assert p in multiset(Resident(processes));
      }
    }
  }

  lemma {:induction false} ResidentIff(processes: seq<ProcessStat>, p: ProcessStat)
    ensures p in Resident(processes) <==> p in processes && p.rssPages > 0
  {
    if processes != [] {
      var n := |processes| - 1;
      ResidentIff(processes[..n], p);
      assert processes == processes[..n] + [processes[n]];
    }
  }

  /** The cut keeps the largest: nothing resident that is left out is larger than anything kept. */
  lemma CutKeepsTheLargest(processes: seq<ProcessStat>) returns (dropped: seq<ProcessStat>)
    ensures var kept := Truncate(Sorted(Resident(processes), LargerFirst), MAX_PROCESSES);
      && |kept| == Min(|Resident(processes)|, MAX_PROCESSES)
      && multiset(kept) + multiset(dropped) == multiset(Resident(processes))
      && SortedBy(kept, LargerFirst)
      && forall k, d :: k in kept && d in dropped ==> k.rssPages >= d.rssPages
  {
    var all := Sorted(Resident(processes), LargerFirst);
    SortKeepsItems(Resident(processes), LargerFirst);
    SortSorts(Resident(processes), LargerFirst);
    assert |all| == |Resident(processes)| by {
      assert |multiset(all)| == |all| && |multiset(Resident(processes))| == |Resident(processes)|;
    }
    var n := Min(|all|, MAX_PROCESSES);
    dropped := all[n..];
    assert all == all[..n] + dropped;
  }
}
