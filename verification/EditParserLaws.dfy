/**
 What the SEARCH/REPLACE parser promises: one event for each SEARCH marker line, block and file order,
 and a round trip with the printer that holds exactly for the blocks a parser can return.
 */
module EditParserLaws {
  import opened Options
  import opened EditText
  import opened EditParser

  // ----- every SEARCH marker is accounted for once

  /** The line numbers of the SEARCH markers. */
  function SearchLines(lines: seq<string>, at: nat): seq<nat> {
    if lines == [] then []
    else (if IsSearch(lines[0]) then [at] else []) + SearchLines(lines[1..], at + 1)
  }

  function MarkersOf(events: seq<Event>): seq<nat> {
    if events == [] then [] else [events[0].at] + MarkersOf(events[1..])
  }

  lemma MarkerKindsDiffer(line: string)
    ensures IsDivider(line) || IsReplace(line) ==> !IsSearch(line)
  {
    var t := TrimBlanks(line);
    assert forall c: char :: RunLength(t, c) >= 5 ==> t[0] == c;
  }

  /** No SEARCH marker is swallowed: the lines a block consumes after its own marker hold none. */
  lemma BlockSwallowsNoMarker(rest: seq<string>, at: nat, current: Option<string>, k: nat)
    requires k < ReadBlock(rest, at, current).1
    ensures !IsSearch(rest[k])
  {
    hide IsFence;
    MarkerKindsDiffer(rest[k]);
    var s := BodyLength(rest);
    if k > s {
      var body := rest[s + 1..];
      assert rest[k] == body[k - s - 1];
    }
  }

  lemma {:induction false} SkipPlainLines(lines: seq<string>, at: nat, n: nat)
    requires n <= |lines| && forall k :: 0 <= k < n ==> !IsSearch(lines[k])
    ensures SearchLines(lines, at) == SearchLines(lines[n..], at + n)
  {
    hide IsSearch;
    if n > 0 {
      SkipPlainLines(lines[1..], at + 1, n - 1);
      assert lines[1..][n - 1..] == lines[n..];
    }
  }

  /** The lines a block takes up hold the one marker it starts at. */
  lemma BlockHoldsOneMarker(lines: seq<string>, at: nat, current: Option<string>)
    requires lines != [] && IsSearch(lines[0])
    ensures var (event, used) := ReadBlock(lines[1..], at, current);
      event.at == at && SearchLines(lines, at) == [at] + SearchLines(lines[1 + used..], at + 1 + used)
  {
    hide IsSearch, ReadBlock;
    var rest := lines[1..];
    assert SearchLines(lines, at) == [at] + SearchLines(rest, at + 1);
    hide SearchLines;
    var (event, used) := ReadBlock(rest, at, current);
    forall k | 0 <= k < used ensures !IsSearch(rest[k]) {
      BlockSwallowsNoMarker(rest, at, current, k);
    }
    EventIsAtItsMarker(rest, at, current);
    SkipPlainLines(rest, at + 1, used);
    assert rest[used..] == lines[1 + used..];
  }

  lemma EventsUnfold(lines: seq<string>, at: nat, current: Option<string>, known: Option<set<string>>)
    requires lines != []
    ensures Events(lines, at, current, known)
         == if IsSearch(lines[0]) then
              var (event, used) := ReadBlock(lines[1..], at, current);
              [event] + Events(lines[1 + used..], at + 1 + used, current, known)
            else Events(lines[1..], at + 1, Target(lines[0], current, known), known)
  {
    hide IsSearch, ReadBlock, Target;
  }

  lemma MarkersUnfold(event: Event, later: seq<Event>)
    ensures MarkersOf([event] + later) == [event.at] + MarkersOf(later)
  {
    assert ([event] + later)[1..] == later;
  }

  /** Every SEARCH marker line yields exactly one event, in order, and nothing else yields one. */
  lemma {:induction false} OneEventPerMarker(lines: seq<string>, at: nat, current: Option<string>,
                                             known: Option<set<string>>)
    ensures MarkersOf(Events(lines, at, current, known)) == SearchLines(lines, at)
    decreases |lines|
  {
    hide IsSearch, ReadBlock, Target;
    if lines != [] {
      EventsUnfold(lines, at, current, known);
      hide Events;
      if IsSearch(lines[0]) {
        var (event, used) := ReadBlock(lines[1..], at, current);
        BlockHoldsOneMarker(lines, at, current);
        var later := Events(lines[1 + used..], at + 1 + used, current, known);
        OneEventPerMarker(lines[1 + used..], at + 1 + used, current, known);
        MarkersUnfold(event, later);
        hide SearchLines, MarkersOf;
      } else {
        hide MarkersOf;
        OneEventPerMarker(lines[1..], at + 1, Target(lines[0], current, known), known);
      }
    }
  }

  lemma EventIsAtItsMarker(rest: seq<string>, at: nat, current: Option<string>)
    ensures ReadBlock(rest, at, current).0.at == at
  {
  }

  function TotalBlocks(files: seq<Edits>): nat {
    if files == [] then 0 else |files[0].blocks| + TotalBlocks(files[1..])
  }

  lemma {:induction false} AddBlockCounts(files: seq<Edits>, path: string, block: EditBlock)
    ensures TotalBlocks(AddBlock(files, path, block)) == TotalBlocks(files) + 1
  {
    if files == [] {
      assert [Edits(path, [block])][1..] == [];
    } else if files[0].path != path {
      AddBlockCounts(files[1..], path, block);
    }
  }

  lemma {:induction false} GroupedCounts(acc: Parsed, events: seq<Event>)
    ensures var p := GroupedOnto(acc, events);
            TotalBlocks(p.files) + |p.notes| == TotalBlocks(acc.files) + |acc.notes| + |events|
    decreases |events|
  {
    if events != [] {
      match events[0] {
        case Found(_, path, block) => AddBlockCounts(acc.files, path, block);
        case Broken(_, _) =>
      }
      GroupedCounts(Absorb(acc, events[0]), events[1..]);
    }
  }

  lemma {:induction false} MarkersLength(events: seq<Event>)
    ensures |MarkersOf(events)| == |events|
  {
    if events != [] {
      MarkersLength(events[1..]);
    }
  }

  /** Blocks and notes together are as many as the SEARCH marker lines of the text. */
  lemma NothingIsSwallowed(lines: seq<string>, known: Option<set<string>>)
    ensures var p := ParsedLines(lines, known);
            TotalBlocks(p.files) + |p.notes| == |SearchLines(lines, 0)|
  {
    OneEventPerMarker(lines, 0, None, known);
    MarkersLength(Events(lines, 0, None, known));
    GroupedCounts(Parsed([], []), Events(lines, 0, None, known));
  }

  // ----- order

  function BlocksFor(events: seq<Event>, path: string): seq<EditBlock> {
    if events == [] then []
    else
      (if events[0].Found? && events[0].path == path then [events[0].block] else [])
      + BlocksFor(events[1..], path)
  }

  function BlocksOf(files: seq<Edits>, path: string): seq<EditBlock> {
    if files == [] then []
    else if files[0].path == path then files[0].blocks
    else BlocksOf(files[1..], path)
  }

  function PathsOf(files: seq<Edits>): seq<string> {
    if files == [] then [] else [files[0].path] + PathsOf(files[1..])
  }

  /** The paths of the blocks, each where it is first seen. */
  function FirstSeen(seen: seq<string>, events: seq<Event>): seq<string>
    decreases |events|
  {
    if events == [] then seen
    else
      FirstSeen(if events[0].Broken? || events[0].path in seen then seen else seen + [events[0].path], events[1..])
  }

  lemma {:induction false} AddBlockOrder(files: seq<Edits>, path: string, block: EditBlock, p: string)
    ensures BlocksOf(AddBlock(files, path, block), p) == BlocksOf(files, p) + if p == path then [block] else []
    ensures PathsOf(AddBlock(files, path, block))
         == if path in PathsOf(files) then PathsOf(files) else PathsOf(files) + [path]
  {
    if files != [] && files[0].path != path {
      AddBlockOrder(files[1..], path, block, p);
      var tail := AddBlock(files[1..], path, block);
      assert ([files[0]] + tail)[1..] == tail;
    } else if files != [] {
      var head := Edits(path, files[0].blocks + [block]);
      assert ([head] + files[1..])[1..] == files[1..];
    }
  }

  lemma {:induction false} GroupedKeepsOrderOnto(acc: Parsed, events: seq<Event>, p: string)
    ensures var files := GroupedOnto(acc, events).files;
            && BlocksOf(files, p) == BlocksOf(acc.files, p) + BlocksFor(events, p)
            && PathsOf(files) == FirstSeen(PathsOf(acc.files), events)
    decreases |events|
  {
    hide AddBlock;
    if events != [] {
      match events[0] {
        case Found(_, path, block) => AddBlockOrder(acc.files, path, block, p);
        case Broken(_, _) =>
      }
      GroupedKeepsOrderOnto(Absorb(acc, events[0]), events[1..], p);
    }
  }

  lemma {:induction false} GroupedIsDistinct(acc: Parsed, events: seq<Event>)
    requires DistinctPaths(acc.files)
    ensures DistinctPaths(GroupedOnto(acc, events).files)
    decreases |events|
  {
    if events != [] {
      match events[0] {
        case Found(_, path, block) => AddBlockKeepsDistinct(acc.files, path, block);
        case Broken(_, _) =>
      }
      GroupedIsDistinct(Absorb(acc, events[0]), events[1..]);
    }
  }

  /** Files come in first-seen order, one per path, and each holds its path's blocks in text order. */
  lemma ParseKeepsOrder(lines: seq<string>, known: Option<set<string>>, p: string)
    ensures var files, events := ParsedLines(lines, known).files, Events(lines, 0, None, known);
            && BlocksOf(files, p) == BlocksFor(events, p)
            && PathsOf(files) == FirstSeen([], events)
            && DistinctPaths(files)
  {
    GroupedKeepsOrderOnto(Parsed([], []), Events(lines, 0, None, known), p);
    GroupedIsDistinct(Parsed([], []), Events(lines, 0, None, known));
  }

  // ----- printing

  const SEARCH_LINE := "<<<<<<< SEARCH"
  const DIVIDER_LINE := "======="
  const REPLACE_LINE := ">>>>>>> REPLACE"

  function PrintBlock(b: EditBlock): seq<string> {
    [SEARCH_LINE] + Split(b.search) + [DIVIDER_LINE] + Split(b.replace) + [REPLACE_LINE]
  }

  function PrintBlocks(blocks: seq<EditBlock>): seq<string> {
    if blocks == [] then [] else PrintBlock(blocks[0]) + PrintBlocks(blocks[1..])
  }

  function PrintFiles(files: seq<Edits>): seq<string> {
    if files == [] then []
    else ["### " + files[0].path] + PrintBlocks(files[0].blocks) + PrintFiles(files[1..])
  }

  /** A body the parser can return: no marker line, and no line boundary but the newline. */
  predicate PlainBody(body: string) {
    forall i :: 0 <= i < |Split(body)| ==> !IsMarker(Split(body)[i]) && Unbroken(Split(body)[i])
  }

  predicate Printable(b: EditBlock) {
    PlainBody(b.search) && PlainBody(b.replace)
  }

  predicate AllPrintable(files: seq<Edits>) {
    forall i, j :: 0 <= i < |files| && 0 <= j < |files[i].blocks| ==> Printable(files[i].blocks[j])
  }

  /** A bare path as a header carries it: no whitespace, no backquotes around it, no leading slash. */
  predicate Canonical(path: string) {
    && path != "" && path[0] != '`' && path[0] != '/' && path[|path| - 1] != '`'
    && forall i :: 0 <= i < |path| ==> !IsSpace(path[i])
  }

  lemma {:induction false} RunLengthIs(s: string, c: char, k: nat)
    requires k <= |s| && forall i :: 0 <= i < k ==> s[i] == c
    requires k < |s| ==> s[k] != c
    ensures RunLength(s, c) == k
  {
    if k > 0 {
      RunLengthIs(s[1..], c, k - 1);
    }
  }

  /** Text with no blank at either end survives trimming, with or without one blank before it. */
  lemma TrimKeeps(x: string)
    requires x != "" && !IsBlank(x[0]) && !IsBlank(x[|x| - 1])
    ensures TrimBlanks(x) == x && TrimBlanks(" " + x) == x
  {
    assert (" " + x)[|" " + x| - 1] == x[|x| - 1];
    LeadingWsUnique(x, "");
    LeadingWsUnique(" " + x, " ");
  }

  /** A run of the mark, alone or followed by the tag, is a fence line. */
  lemma FenceLine(line: string, mark: char, tag: string, k: nat)
    requires 5 <= k <= |line| && !IsBlank(mark) && forall i :: 0 <= i < k ==> line[i] == mark
    requires line[k..] == "" || (tag != "" && line[k..] == " " + tag && !IsBlank(tag[0]) && !IsBlank(tag[|tag| - 1]))
    requires mark != ' '
    ensures IsFence(line, mark, tag)
  {
    hide TrimEnd, RunLength;
    if line[k..] != "" {
      assert line[|line| - 1] == line[k..][|line| - k - 1] && line[k] == line[k..][0];
      TrimKeeps(tag);
    }
    TrimKeeps(line);
    RunLengthIs(line, mark, k);
    LeadingWsUnique("", "");
    TrimEmpty();
  }

  lemma TrimEmpty()
    ensures TrimBlanks("") == ""
  {
  }

  lemma MarkerLines()
    ensures IsSearch(SEARCH_LINE) && IsDivider(DIVIDER_LINE) && IsReplace(REPLACE_LINE)
    ensures Unbroken(SEARCH_LINE) && Unbroken(DIVIDER_LINE) && Unbroken(REPLACE_LINE)
  {
    hide IsFence;
    assert SEARCH_LINE[7..] == " " + "SEARCH" && REPLACE_LINE[7..] == " " + "REPLACE";
    FenceLine(SEARCH_LINE, '<', "SEARCH", 7);
    FenceLine(DIVIDER_LINE, '=', "", 7);
    FenceLine(REPLACE_LINE, '>', "REPLACE", 7);
  }

  // ----- a canonical header names its path

  lemma {:induction false} StripKeeps(s: string)
    requires s != "" ==> !IsSpace(s[0]) && !IsSpace(s[|s| - 1])
    ensures Strip(s) == s
  {
  }

  lemma CanonicalIsClean(path: string)
    requires Canonical(path)
    ensures CleanPath(path) == path
  {
    StripKeeps(path);
  }

  lemma {:induction false} BeforeLabelKeeps(s: string)
    requires forall i :: 0 <= i < |s| ==> !IsSpace(s[i])
    ensures BeforeLabel(s) == s
  {
    if s != "" {
      BeforeLabelKeeps(s[1..]);
      assert [s[0]] + s[1..] == s;
    }
  }

  lemma CanonicalIsKnown(path: string, known: Option<set<string>>)
    requires Canonical(path)
    ensures KnownPath(path, known) == path
  {
    BeforeLabelKeeps(path);
    StripKeeps(path);
    var k := OpenParen(path[..|path| - 1]);
    if k.Some? && k.value > 0 {
      assert path[..k.value][k.value - 1] == path[k.value - 1];
    }
  }

  lemma HeaderLine(path: string, current: Option<string>, known: Option<set<string>>)
    requires Canonical(path)
    ensures !IsSearch("### " + path)
    ensures Target("### " + path, current, known) == Some(path)
    ensures Unbroken("### " + path)
  {
    var line := "### " + path;
    hide KnownPath, CleanPath, RunLength, TrimEnd, LeadingWs;
    assert line[|line| - 1] == path[|path| - 1] && line[0] == '#';
    TrimKeeps(line);
    TrimKeeps(path);
    RunLengthIs(line, '<', 0);
    LeadingWsUnique(line, "");
    RunLengthIs(line, '#', 3);
    assert line[3..] == " " + path;
    CanonicalIsClean(path);
    CanonicalIsKnown(path, known);
  }

  // ----- parsing what was printed

  /** A printed block is read back whole, whatever its body says about headers and files. */
  lemma PrintedBlockIsFound(b: EditBlock, rest: seq<string>, at: nat, path: string)
    requires Printable(b)
    ensures ReadBlock(PrintBlock(b)[1..] + rest, at, Some(path)) == (Found(at, path, b), |PrintBlock(b)| - 1)
  {
    hide IsFence, IsSearch, IsReplace, IsDivider, Split, Join, BodyLength;
    MarkerLines();
    var s, r := Split(b.search), Split(b.replace);
    var lines := PrintBlock(b)[1..] + rest;
    assert lines == s + ([DIVIDER_LINE] + r + [REPLACE_LINE] + rest);
    BodyLengthIs(lines, |s|);
    var body := lines[|s| + 1..];
    assert body == r + ([REPLACE_LINE] + rest);
    BodyLengthIs(body, |r|);
    assert lines[..|s|] == s && body[..|r|] == r;
    JoinSplit(b.search);
    JoinSplit(b.replace);
  }

  function AddAll(files: seq<Edits>, path: string, blocks: seq<EditBlock>): seq<Edits>
    decreases |blocks|
  {
    if blocks == [] then files else AddAll(AddBlock(files, path, blocks[0]), path, blocks[1..])
  }

  /** Blocks printed before more lines. */
  function PrintedBefore(blocks: seq<EditBlock>, rest: seq<string>): seq<string> {
    if blocks == [] then rest else PrintBlock(blocks[0]) + PrintedBefore(blocks[1..], rest)
  }

  lemma {:induction false} PrintedBeforeIs(blocks: seq<EditBlock>, rest: seq<string>)
    ensures PrintedBefore(blocks, rest) == PrintBlocks(blocks) + rest
  {
    hide PrintBlock;
    if blocks != [] {
      PrintedBeforeIs(blocks[1..], rest);
    }
  }

  lemma PrintedLength(blocks: seq<EditBlock>)
    ensures |PrintBlocks(blocks)| == if blocks == [] then 0 else |PrintBlock(blocks[0])| + |PrintBlocks(blocks[1..])|
  {
    hide PrintBlock;
  }

  lemma {:induction false} PrintedBlocksAreAdded(acc: Parsed, blocks: seq<EditBlock>, path: string,
                                                 rest: seq<string>, at: nat, known: Option<set<string>>)
    requires forall j :: 0 <= j < |blocks| ==> Printable(blocks[j])
    ensures GroupedOnto(acc, Events(PrintedBefore(blocks, rest), at, Some(path), known))
         == GroupedOnto(acc.(files := AddAll(acc.files, path, blocks)),
                        Events(rest, at + |PrintBlocks(blocks)|, Some(path), known))
    decreases |blocks|
  {
    hide Printable, PrintBlock, PrintBlocks, AddBlock, Events, GroupedOnto;
    PrintedLength(blocks);
    if blocks != [] {
      var size, later := |PrintBlock(blocks[0])|, PrintedBefore(blocks[1..], rest);
      var event := Found(at, path, blocks[0]);
      PrintedBlockStep(blocks[0], later, at, path, known);
      GroupedStep(acc, event, Events(later, at + size, Some(path), known));
      PrintedBlocksAreAdded(Absorb(acc, event), blocks[1..], path, rest, at + size, known);
    }
  }

  lemma PrintedBlockStep(b: EditBlock, later: seq<string>, at: nat, path: string, known: Option<set<string>>)
    requires Printable(b)
    ensures Events(PrintBlock(b) + later, at, Some(path), known)
         == [Found(at, path, b)] + Events(later, at + |PrintBlock(b)|, Some(path), known)
  {
    hide IsFence, ReadBlock, Printable, Target, Split;
    MarkerLines();
    var lines := PrintBlock(b) + later;
    PrintedBlockIsFound(b, later, at, path);
    assert lines[0] == SEARCH_LINE && lines[1..] == PrintBlock(b)[1..] + later;
    assert lines[|PrintBlock(b)|..] == later;
  }

  lemma {:induction false} AddAllNew(files: seq<Edits>, path: string, done: seq<EditBlock>, blocks: seq<EditBlock>)
    requires forall i :: 0 <= i < |files| ==> files[i].path != path
    ensures AddAll(files + [Edits(path, done)], path, blocks) == files + [Edits(path, done + blocks)]
    decreases |blocks|
  {
    if blocks == [] {
      assert done + blocks == done;
    } else {
      AddToLast(files, path, done, blocks[0]);
      AddAllNew(files, path, done + [blocks[0]], blocks[1..]);
      assert (done + [blocks[0]]) + blocks[1..] == done + blocks;
    }
  }

  lemma {:induction false} AddToLast(files: seq<Edits>, path: string, done: seq<EditBlock>, block: EditBlock)
    requires forall i :: 0 <= i < |files| ==> files[i].path != path
    ensures AddBlock(files + [Edits(path, done)], path, block) == files + [Edits(path, done + [block])]
    ensures AddBlock(files, path, block) == files + [Edits(path, [block])]
  {
    if files != [] {
      AddToLast(files[1..], path, done, block);
      assert (files + [Edits(path, done)])[1..] == files[1..] + [Edits(path, done)];
    }
  }

  /** Distinct canonical paths, and at least one block for each. */
  predicate WellFormed(files: seq<Edits>) {
    DistinctPaths(files) && forall i :: 0 <= i < |files| ==> Canonical(files[i].path) && files[i].blocks != []
  }

  lemma NothingIsParsed(acc: seq<Edits>, at: nat, current: Option<string>, known: Option<set<string>>)
    ensures GroupedOnto(Parsed(acc, []), Events([], at, current, known)) == Parsed(acc, [])
  {
  }

  /** One printed file after others: its blocks become a new last file. */
  lemma PrintedFileIsParsed(acc: seq<Edits>, f: Edits, rest: seq<string>, at: nat, current: Option<string>,
                            known: Option<set<string>>)
    requires Canonical(f.path) && f.blocks != [] && forall j :: 0 <= j < |f.blocks| ==> Printable(f.blocks[j])
    requires forall i :: 0 <= i < |acc| ==> acc[i].path != f.path
    ensures GroupedOnto(Parsed(acc, []), Events(["### " + f.path] + (PrintBlocks(f.blocks) + rest), at, current, known))
         == GroupedOnto(Parsed(acc + [f], []), Events(rest, at + 1 + |PrintBlocks(f.blocks)|, Some(f.path), known))
  {
    hide IsSearch, Printable, PrintBlocks, ReadBlock, Target, Canonical;
    HeaderLine(f.path, current, known);
    var lines := ["### " + f.path] + (PrintBlocks(f.blocks) + rest);
    assert lines[0] == "### " + f.path && lines[1..] == PrintBlocks(f.blocks) + rest;
    PrintedBeforeIs(f.blocks, rest);
    PrintedBlocksAreAdded(Parsed(acc, []), f.blocks, f.path, rest, at + 1, known);
    AddToLast(acc, f.path, [], f.blocks[0]);
    AddAllNew(acc, f.path, [f.blocks[0]], f.blocks[1..]);
    assert [f.blocks[0]] + f.blocks[1..] == f.blocks;
  }

  lemma {:induction false} PrintedFilesAreParsed(acc: seq<Edits>, files: seq<Edits>, at: nat, current: Option<string>,
                                                 known: Option<set<string>>)
    requires WellFormed(acc + files) && AllPrintable(files)
    ensures GroupedOnto(Parsed(acc, []), Events(PrintFiles(files), at, current, known)) == Parsed(acc + files, [])
    decreases |files|
  {
    hide IsSearch, Printable, PrintBlocks, ReadBlock, Target, Canonical, GroupedOnto, Events;
    if files == [] {
      assert acc + files == acc;
      NothingIsParsed(acc, at, current, known);
    } else {
      var f, rest := files[0], PrintFiles(files[1..]);
      assert (acc + files)[|acc|] == f;
      forall i | 0 <= i < |acc| ensures acc[i].path != f.path {
        assert (acc + files)[i].path != (acc + files)[|acc|].path;
      }
      assert PrintFiles(files) == ["### " + f.path] + (PrintBlocks(f.blocks) + rest);
      PrintedFileIsParsed(acc, f, rest, at, current, known);
      assert (acc + [f]) + files[1..] == acc + files;
      PrintedFilesAreParsed(acc + [f], files[1..], at + 1 + |PrintBlocks(f.blocks)|, Some(f.path), known);
    }
  }

  predicate AllUnbroken(lines: seq<string>) {
    forall i :: 0 <= i < |lines| ==> Unbroken(lines[i])
  }

  lemma UnbrokenConcat(a: seq<string>, b: seq<string>)
    requires AllUnbroken(a) && AllUnbroken(b)
    ensures AllUnbroken(a + b)
  {
  }

  lemma PrintedBlockUnbroken(b: EditBlock)
    requires Printable(b)
    ensures AllUnbroken(PrintBlock(b))
  {
    hide IsMarker, Split, Unbroken;
    MarkerLines();
    var s, r := Split(b.search), Split(b.replace);
    UnbrokenConcat([SEARCH_LINE], s);
    UnbrokenConcat([SEARCH_LINE] + s, [DIVIDER_LINE]);
    UnbrokenConcat([SEARCH_LINE] + s + [DIVIDER_LINE], r);
    UnbrokenConcat([SEARCH_LINE] + s + [DIVIDER_LINE] + r, [REPLACE_LINE]);
  }

  lemma {:induction false} PrintedBlocksUnbroken(blocks: seq<EditBlock>)
    requires forall j :: 0 <= j < |blocks| ==> Printable(blocks[j])
    ensures AllUnbroken(PrintBlocks(blocks))
  {
    hide Printable, PrintBlock, Unbroken;
    if blocks != [] {
      PrintedBlockUnbroken(blocks[0]);
      PrintedBlocksUnbroken(blocks[1..]);
      UnbrokenConcat(PrintBlock(blocks[0]), PrintBlocks(blocks[1..]));
    }
  }

  lemma {:induction false} PrintedFilesUnbroken(files: seq<Edits>)
    requires AllPrintable(files) && forall i :: 0 <= i < |files| ==> Canonical(files[i].path)
    ensures AllUnbroken(PrintFiles(files))
  {
    hide Printable, PrintBlocks, Unbroken, Canonical, IsSearch, Target;
    if files != [] {
      HeaderLine(files[0].path, None, None);
      PrintedBlocksUnbroken(files[0].blocks);
      PrintedFilesUnbroken(files[1..]);
    }
  }

  // ----- the converse: what a parse returns is printable

  lemma {:induction false} SplitLinesUnbroken(s: string)
    ensures AllUnbroken(SplitLines(s))
    decreases |s|
  {
    if s != "" {
      var k := BreakAt(s);
      if k < |s| {
        SplitLinesUnbroken(s[k + BreakWidth(s, k)..]);
      }
    }
  }

  lemma UnbrokenIsOneLine(s: string)
    requires Unbroken(s)
    ensures OneLine(s)
  {
  }

  lemma BodyIsPlain(body: seq<string>)
    requires AllUnbroken(body) && forall i :: 0 <= i < |body| ==> !IsMarker(body[i])
    ensures PlainBody(Join(body))
  {
    hide IsMarker, Unbroken, Join, OneLine;
    if body == [] {
      EmptyBody();
    } else {
      forall i | 0 <= i < |body| ensures OneLine(body[i]) {
        UnbrokenIsOneLine(body[i]);
      }
      hide Split;
      SplitJoin(body);
    }
  }

  lemma EmptyBody()
    ensures PlainBody(Join([]))
  {
    hide IsMarker;
    assert Split(Join([])) == [""];
    EmptyIsNoMarker();
  }

  lemma EmptyIsNoMarker()
    ensures !IsMarker("")
  {
    TrimEmpty();
    hide TrimBlanks;
  }

  lemma FoundIsPrintable(rest: seq<string>, at: nat, current: Option<string>)
    requires AllUnbroken(rest)
    ensures var event := ReadBlock(rest, at, current).0; event.Found? ==> Printable(event.block)
  {
    hide IsMarker, PlainBody, Unbroken;
    var s := BodyLength(rest);
    BodyIsPlain(rest[..s]);
    if s < |rest| {
      var body := rest[s + 1..];
      var t := BodyLength(body);
      BodyIsPlain(body[..t]);
    }
  }

  predicate FoundPrintable(events: seq<Event>) {
    forall i :: 0 <= i < |events| ==> events[i].Found? ==> Printable(events[i].block)
  }

  lemma {:induction false} EventsArePrintable(lines: seq<string>, at: nat, current: Option<string>,
                                              known: Option<set<string>>)
    requires AllUnbroken(lines)
    ensures FoundPrintable(Events(lines, at, current, known))
    decreases |lines|
  {
    hide IsSearch, Printable, ReadBlock, Target, Unbroken;
    if lines != [] {
      if IsSearch(lines[0]) {
        var (event, used) := ReadBlock(lines[1..], at, current);
        FoundIsPrintable(lines[1..], at, current);
        EventsArePrintable(lines[1 + used..], at + 1 + used, current, known);
      } else {
        EventsArePrintable(lines[1..], at + 1, Target(lines[0], current, known), known);
      }
    }
  }

  lemma {:induction false} GroupedIsPrintable(acc: Parsed, events: seq<Event>)
    requires AllPrintable(acc.files) && FoundPrintable(events)
    ensures AllPrintable(GroupedOnto(acc, events).files)
    decreases |events|
  {
    hide Printable, AddBlock;
    if events != [] {
      match events[0] {
        case Found(_, path, block) => AddBlockEffect(acc.files, path, block);
        case Broken(_, _) =>
      }
      GroupedIsPrintable(Absorb(acc, events[0]), events[1..]);
    }
  }

  /** Every block any text parses to could be printed. */
  lemma ParsedIsPrintable(text: string, known: Option<set<string>>)
    ensures AllPrintable(ParsedLines(SplitLines(text), known).files)
  {
    SplitLinesUnbroken(text);
    EventsArePrintable(SplitLines(text), 0, None, known);
    GroupedIsPrintable(Parsed([], []), Events(SplitLines(text), 0, None, known));
  }

  /**
   Printing files and parsing the text gives back exactly those files and no notes if and only if no
   body holds a marker line or a line boundary other than the newline.
   */
  lemma ParseOfPrintIff(files: seq<Edits>, known: Option<set<string>>)
    requires WellFormed(files)
    ensures ParsedLines(SplitLines(Unlines(PrintFiles(files))), known) == Parsed(files, []) <==> AllPrintable(files)
  {
    hide AllPrintable, PrintFiles, SplitLines, Unlines, Events;
    if AllPrintable(files) {
      assert [] + files == files;
      PrintedFilesUnbroken(files);
      SplitLinesUnlines(PrintFiles(files));
      PrintedFilesAreParsed([], files, 0, None, known);
    } else {
      ParsedIsPrintable(Unlines(PrintFiles(files)), known);
    }
  }
}
