/**
 The SEARCH/REPLACE parser: a line-driven scan with error recovery. `ParseEditBlocks` is the scan;
 `Events` is what it finds, one event per SEARCH marker line, and `Grouped` how events become files.
 */
module EditParser {
  import opened Options
  import opened EditText

  datatype EditBlock = EditBlock(search: string, replace: string)

  /** What is wrong with a block the parser could not read. */
  datatype Fault = NoDivider | NoTerminator | NoHeader

  datatype Note = Note(fault: Fault, path: Option<string>)

  /** The blocks of one file, as a value. */
  datatype Edits = Edits(path: string, blocks: seq<EditBlock>)

  datatype Parsed = Parsed(files: seq<Edits>, notes: seq<Note>)

  // ----- line classes (the module's regular expressions)

  function TrimEnd(s: string): string {
    if s != "" && IsBlank(s[|s| - 1]) then TrimEnd(s[..|s| - 1]) else s
  }

  /** Spaces and tabs at both ends removed. */
  function TrimBlanks(s: string): string {
    TrimEnd(s)[|LeadingWs(TrimEnd(s))|..]
  }

  function RunLength(s: string, c: char): (k: nat)
    ensures k <= |s|
  {
    if s != "" && s[0] == c then 1 + RunLength(s[1..], c) else 0
  }

  /** At least five `mark` characters and then at most the tag, on a line of their own. */
  predicate IsFence(line: string, mark: char, tag: string) {
    var t := TrimBlanks(line);
    var k := RunLength(t, mark);
    k >= 5 && (TrimBlanks(t[k..]) == "" || TrimBlanks(t[k..]) == tag)
  }

  predicate IsSearch(line: string) {
    IsFence(line, '<', "SEARCH")
  }

  predicate IsDivider(line: string) {
    IsFence(line, '=', "")
  }

  predicate IsReplace(line: string) {
    IsFence(line, '>', "REPLACE")
  }

  predicate IsMarker(line: string) {
    IsSearch(line) || IsDivider(line) || IsReplace(line)
  }

  /** The text of a `## path` header: two to four hashes, blanks, and something after them. */
  function HeaderText(line: string): Option<string> {
    var t := line[|LeadingWs(line)|..];
    var k := RunLength(t, '#');
    if 2 <= k <= 4 && |t| >= k + 2 && IsBlank(t[k]) then Some(TrimBlanks(t[k..])) else None
  }

  function Upper(c: char): char {
    if 'a' <= c <= 'z' then c - ('a' - 'A') else c
  }

  predicate HasPrefixNoCase(s: string, p: string) {
    |p| <= |s| && forall i :: 0 <= i < |p| ==> Upper(s[i]) == p[i]
  }

  function Reverse(s: string): string {
    if s == "" then "" else Reverse(s[1..]) + [s[0]]
  }

  /** What is between the angle brackets of a line made of one to three of each. */
  function Bracketed(line: string): Option<string> {
    var t := TrimBlanks(line);
    var open, close := RunLength(t, '<'), RunLength(Reverse(t), '>');
    if 1 <= open <= 3 && 1 <= close <= 3 && open + close <= |t| then Some(t[open..|t| - close]) else None
  }

  function FileOpenText(line: string): Option<string> {
    var b := Bracketed(line);
    if b.Some? && HasPrefixNoCase(b.value, "FILE:") && |b.value| > 5 && '>' !in b.value
    then Some(b.value[5..]) else None
  }

  predicate IsFileClose(line: string) {
    var b := Bracketed(line);
    b.Some? && |b.value| == 8 && HasPrefixNoCase(b.value, "END_FILE")
  }

  // ----- from header text to path

  function DropLeading(s: string, c: char): string {
    if s != "" && s[0] == c then DropLeading(s[1..], c) else s
  }

  function DropTrailing(s: string, c: char): string {
    if s != "" && s[|s| - 1] == c then DropTrailing(s[..|s| - 1], c) else s
  }

  /** Whitespace, then backquotes, then leading slashes, then whitespace again taken off. */
  function CleanPath(s: string): string {
    Strip(DropLeading(DropTrailing(DropLeading(Strip(s), '`'), '`'), '/'))
  }

  /** The part before a trailing parenthetical label that blanks set apart. */
  function BeforeParenthetical(s: string): Option<string> {
    if s == "" || s[|s| - 1] != ')' then None
    else
      var k := OpenParen(s[..|s| - 1]);
      if k.None? then None
      else
        var pre := s[..k.value];
        var head := TrimEnd(pre);
        if head != "" && |head| < |pre| && !IsSpace(head[|head| - 1]) then Some(head) else None
  }

  /** The `(` that opens the parenthesis the text ends in, with no other parenthesis after it. */
  function OpenParen(s: string): (k: Option<nat>)
    ensures k.Some? ==> k.value < |s| && s[k.value] == '('
  {
    if s == "" || s[|s| - 1] == ')' then None
    else if s[|s| - 1] == '(' then Some(|s| - 1)
    else OpenParen(s[..|s| - 1])
  }

  /** The text before the first blank, or before a colon that a blank follows. */
  function BeforeLabel(s: string): string {
    if s == "" || IsBlank(s[0]) || (s[0] == ':' && |s| > 1 && IsBlank(s[1])) then ""
    else [s[0]] + BeforeLabel(s[1..])
  }

  function KnownPath(path: string, known: Option<set<string>>): string {
    if known.None? || path in known.value then path
    else
      var head := BeforeParenthetical(path);
      if head.Some? && head.value in known.value then head.value
      else
        var first := DropTrailing(DropLeading(Strip(BeforeLabel(path)), '`'), '`');
        if first != "" && first in known.value then first else path
  }

  /** The target file after a line that is not part of a block. */
  function Target(line: string, current: Option<string>, known: Option<set<string>>): Option<string> {
    if HeaderText(line).Some? then Some(KnownPath(CleanPath(HeaderText(line).value), known))
    else if FileOpenText(line).Some? then Some(KnownPath(CleanPath(FileOpenText(line).value), known))
    else if IsFileClose(line) then None
    else current
  }

  // ----- what the scan finds

  /** What came of the SEARCH marker on line `at`: a block for a file, or a note. */
  datatype Event =
    | Found(at: nat, path: string, block: EditBlock)
    | Broken(at: nat, note: Note)

  /** How many lines a body takes: all those before the next marker of any kind. */
  function BodyLength(lines: seq<string>): (k: nat)
    ensures k <= |lines|
    ensures forall i :: 0 <= i < k ==> !IsMarker(lines[i])
    ensures k < |lines| ==> IsMarker(lines[k])
  {
    hide IsFence;
    if lines == [] || IsMarker(lines[0]) then 0 else 1 + BodyLength(lines[1..])
  }

  /** The event of the SEARCH marker just read, and how many lines after it were consumed. */
  function ReadBlock(rest: seq<string>, at: nat, current: Option<string>): (r: (Event, nat))
    ensures r.1 <= |rest|
  {
    var s := BodyLength(rest);
    if s >= |rest| || !IsDivider(rest[s]) then (Broken(at, Note(NoDivider, current)), s)
    else
      var body := rest[s + 1..];
      var t := BodyLength(body);
      if t >= |body| || !IsReplace(body[t]) then (Broken(at, Note(NoTerminator, current)), s + 1 + t)
      else if current.None? then (Broken(at, Note(NoHeader, None)), s + 1 + t + 1)
      else (Found(at, current.value, EditBlock(Join(rest[..s]), Join(body[..t]))), s + 1 + t + 1)
  }

  /** The events of `lines`, whose first line is line `at` of the text. */
  function Events(lines: seq<string>, at: nat, current: Option<string>, known: Option<set<string>>): seq<Event>
    decreases |lines|
  {
    if lines == [] then []
    else if IsSearch(lines[0]) then
      var (event, used) := ReadBlock(lines[1..], at, current);
      [event] + Events(lines[1 + used..], at + 1 + used, current, known)
    else Events(lines[1..], at + 1, Target(lines[0], current, known), known)
  }

  // ----- from events to files

  function AddBlock(files: seq<Edits>, path: string, block: EditBlock): seq<Edits> {
    if files == [] then [Edits(path, [block])]
    else if files[0].path == path then [Edits(path, files[0].blocks + [block])] + files[1..]
    else [files[0]] + AddBlock(files[1..], path, block)
  }

  function GroupedOnto(acc: Parsed, events: seq<Event>): Parsed
    decreases |events|
  {
    if events == [] then acc
    else GroupedOnto(Absorb(acc, events[0]), events[1..])
  }

  function Absorb(acc: Parsed, event: Event): Parsed {
    match event
    case Found(_, path, block) => acc.(files := AddBlock(acc.files, path, block))
    case Broken(_, note) => acc.(notes := acc.notes + [note])
  }

  function Grouped(events: seq<Event>): Parsed {
    GroupedOnto(Parsed([], []), events)
  }

  function ParsedLines(lines: seq<string>, known: Option<set<string>>): Parsed {
    Grouped(Events(lines, 0, None, known))
  }

  // ----- the scan itself

  class FileEdits {
    const path: string
    var blocks: seq<EditBlock>

    constructor (path: string)
      ensures this.path == path && blocks == []
    {
      this.path := path;
      blocks := [];
    }
  }

  class ParsedEdits {
    var files: seq<FileEdits>
    var malformed: seq<Fault>
    var malformedPaths: seq<Option<string>>

    constructor ()
      ensures files == [] && malformed == [] && malformedPaths == []
    {
      files, malformed, malformedPaths := [], [], [];
    }

    /** The objects hold `parsed`: the same files in the same order, and the two lists of notes in parallel. */
    ghost predicate Holds(parsed: Parsed)
      reads this, files
    {
      && |files| == |parsed.files|
      && (forall i :: 0 <= i < |files| ==> files[i].path == parsed.files[i].path)
      && (forall i :: 0 <= i < |files| ==> files[i].blocks == parsed.files[i].blocks)
      && |malformed| == |malformedPaths| == |parsed.notes|
      && (forall i :: 0 <= i < |malformed| ==> parsed.notes[i] == Note(malformed[i], malformedPaths[i]))
    }

    /** The index maps each path to the one file object of that path. */
    ghost predicate Indexed(byPath: map<string, FileEdits>, parsed: Parsed)
      requires |files| == |parsed.files|
      reads this
    {
      && (forall p :: p in byPath <==> PathIndex(parsed.files, p).Some?)
      && (forall p <- byPath :: byPath[p] == files[PathIndex(parsed.files, p).value])
    }

    /** One more broken block: `malformed` and `malformed_paths` grow together. */
    method Report(note: Note, ghost parsed: Parsed, ghost byPath: map<string, FileEdits>)
      requires Holds(parsed) && Indexed(byPath, parsed)
      modifies this
      ensures files == old(files)
      ensures Holds(parsed.(notes := parsed.notes + [note])) && Indexed(byPath, parsed)
    {
      malformed := malformed + [note.fault];
      malformedPaths := malformedPaths + [note.path];
    }

    /** The block joins the file of its path, with `byPath` the index of the files by path. */
    method Append(byPath: map<string, FileEdits>, path: string, block: EditBlock, ghost parsed: Parsed)
      returns (byPath': map<string, FileEdits>)
      requires Holds(parsed) && DistinctPaths(parsed.files) && Indexed(byPath, parsed)
      modifies this, files
      ensures Holds(parsed.(files := AddBlock(parsed.files, path, block)))
      ensures Indexed(byPath', parsed.(files := AddBlock(parsed.files, path, block)))
      ensures forall k :: 0 <= k < |files| ==> files[k] in old(files) || fresh(files[k])
    {
      hide PathIndex, AddBlock;
      byPath' := byPath;
      AddBlockEffect(parsed.files, path, block);
      ghost var after := AddBlock(parsed.files, path, block);
      forall p ensures PathIndex(after, p) == IndexAfterAdd(parsed.files, path, p) {
        PathIndexAfterAdd(parsed.files, path, block, p);
      }
      if path in byPath {
        var fe := byPath[path];
        assert forall k :: 0 <= k < |files| ==> (files[k] == fe <==> k == PathIndex(parsed.files, path).value);
        fe.blocks := fe.blocks + [block];
      } else {
        var fe := new FileEdits(path);
        byPath' := byPath[path := fe];
        files := files + [fe];
        fe.blocks := fe.blocks + [block];
      }
    }

    ghost predicate Scanned(byPath: map<string, FileEdits>, parsed: Parsed)
      reads this, files
    {
      Holds(parsed) && DistinctPaths(parsed.files) && Indexed(byPath, parsed)
    }

    method Take(event: Event, byPath: map<string, FileEdits>, ghost parsed: Parsed)
      returns (byPath': map<string, FileEdits>)
      requires Scanned(byPath, parsed)
      modifies this, files
      ensures Scanned(byPath', Absorb(parsed, event))
      ensures forall k :: 0 <= k < |files| ==> files[k] in old(files) || fresh(files[k])
    {
      match event {
        case Found(_, path, block) =>
          byPath' := Append(byPath, path, block, parsed);
          AddBlockKeepsDistinct(parsed.files, path, block);
        case Broken(_, note) =>
          Report(note, parsed, byPath);
          byPath' := byPath;
      }
    }
  }

  predicate DistinctPaths(files: seq<Edits>) {
    forall i, j :: 0 <= i < j < |files| ==> files[i].path != files[j].path
  }

  /** Where the file of a path is in the list. */
  function PathIndex(files: seq<Edits>, path: string): (k: Option<nat>)
    ensures k.Some? ==> k.value < |files| && files[k.value].path == path
    ensures k.None? ==> forall i :: 0 <= i < |files| ==> files[i].path != path
  {
    if files == [] then None
    else if files[0].path == path then Some(0)
    else var k := PathIndex(files[1..], path); if k.None? then None else Some(k.value + 1)
  }

  function IndexAfterAdd(files: seq<Edits>, path: string, p: string): Option<nat> {
    if p == path && PathIndex(files, path).None? then Some(|files|) else PathIndex(files, p)
  }

  lemma {:induction false} PathIndexAfterAdd(files: seq<Edits>, path: string, block: EditBlock, p: string)
    ensures PathIndex(AddBlock(files, path, block), p) == IndexAfterAdd(files, path, p)
  {
    if files != [] && files[0].path != path {
      PathIndexAfterAdd(files[1..], path, block, p);
    }
  }

  /** Adding a block touches one file: the one with that path, or a new one at the end. */
  lemma {:induction false} AddBlockEffect(files: seq<Edits>, path: string, block: EditBlock)
    ensures var k := PathIndex(files, path);
            AddBlock(files, path, block) ==
            if k.Some? then files[k.value := Edits(path, files[k.value].blocks + [block])]
            else files + [Edits(path, [block])]
  {
    if files != [] && files[0].path != path {
      AddBlockEffect(files[1..], path, block);
    }
  }

  lemma AddBlockKeepsDistinct(files: seq<Edits>, path: string, block: EditBlock)
    requires DistinctPaths(files)
    ensures DistinctPaths(AddBlock(files, path, block))
  {
    AddBlockEffect(files, path, block);
  }

  lemma {:induction false} GroupedOntoConcat(acc: Parsed, a: seq<Event>, b: seq<Event>)
    ensures GroupedOnto(acc, a + b) == GroupedOnto(GroupedOnto(acc, a), b)
    decreases |a|
  {
    if a == [] {
      assert a + b == b;
    } else {
      assert (a + b)[1..] == a[1..] + b;
      GroupedOntoConcat(Absorb(acc, a[0]), a[1..], b);
    }
  }

  /** One body, up to its closing marker or whatever marker, or end of text, comes first. */
  method CollectBody(lines: seq<string>, start: nat, closing: string -> bool) returns (body: seq<string>, i: nat)
    requires start <= |lines|
    requires forall line :: closing(line) ==> IsMarker(line)
    ensures i == start + BodyLength(lines[start..]) <= |lines| && body == lines[start..i]
  {
    hide IsFence;
    body, i := [], start;
    while i < |lines| && !closing(lines[i])
      invariant start <= i <= |lines| && body == lines[start..i]
      invariant forall k :: start <= k < i ==> !IsMarker(lines[k])
    {
      if IsMarker(lines[i]) {
        break;
      }
      body := body + [lines[i]];
      i := i + 1;
    }
    BodyLengthIs(lines[start..], i - start);
  }

  /** The block after the SEARCH marker on line `at`, read in the source's order of checks. */
  method ScanBlock(lines: seq<string>, at: nat, current: Option<string>) returns (event: Event, i: nat)
    requires at < |lines|
    ensures at < i <= |lines|
    ensures ReadBlock(lines[at + 1..], at, current) == (event, i - at - 1)
  {
    hide IsSearch, IsDivider, IsReplace, BodyLength, Join;
    ghost var rest := lines[at + 1..];
    var searchLines, replaceLines;
    searchLines, i := CollectBody(lines, at + 1, line => IsDivider(line));
    ghost var middle := i;
    if i >= |lines| || !IsDivider(lines[i]) {
      return Broken(at, Note(NoDivider, current)), i;
    }
    replaceLines, i := CollectBody(lines, i + 1, line => IsReplace(line));
    assert rest[middle - at..] == lines[middle + 1..];
    if i >= |lines| || !IsReplace(lines[i]) {
      return Broken(at, Note(NoTerminator, current)), i;
    }
    i := i + 1;
    if current.None? {
      return Broken(at, Note(NoHeader, None)), i;
    }
    assert searchLines == rest[..middle - at - 1] && replaceLines == rest[middle - at..][..i - middle - 2];
    event := Found(at, current.value, EditBlock(Join(searchLines), Join(replaceLines)));
  }

  method ParseEditBlocks(text: string, known: Option<set<string>>) returns (parsed: ParsedEdits)
    ensures fresh(parsed) && forall k :: 0 <= k < |parsed.files| ==> fresh(parsed.files[k])
    ensures parsed.Holds(ParsedLines(SplitLines(text), known))
  {
    hide IsSearch, Target, ReadBlock, Events, GroupedOnto, AddBlock, SplitLines, PathIndex;
    var lines := SplitLines(text);
    parsed := new ParsedEdits();
    var byPath: map<string, FileEdits> := map[];
    var current: Option<string> := None;
    var i, n := 0, |lines|;
    ghost var done := Parsed([], []);
    assert lines[0..] == lines;
    ghost var goal := GroupedOnto(done, Events(lines, 0, None, known));
    while i < n
      invariant 0 <= i <= n
      invariant fresh(parsed) && forall k :: 0 <= k < |parsed.files| ==> fresh(parsed.files[k])
      invariant parsed.Scanned(byPath, done)
      invariant GroupedOnto(done, Events(lines[i..], i, current, known)) == goal
      decreases n - i
    {
      EventsStep(lines, i, current, known);
      if IsSearch(lines[i]) {
        ghost var at := i;
        var event;
        event, i := ScanBlock(lines, i, current);
        assert Events(lines[at..], at, current, known) == [event] + Events(lines[i..], i, current, known);
        byPath := parsed.Take(event, byPath, done);
        GroupedStep(done, event, Events(lines[i..], i, current, known));
        done := Absorb(done, event);
      } else {
        current := Target(lines[i], current, known);
        i := i + 1;
      }
    }
    EventsEnd(lines[i..], i, current, known);
    GroupedEnd(done);
  }

  lemma EventsEnd(lines: seq<string>, at: nat, current: Option<string>, known: Option<set<string>>)
    requires lines == []
    ensures Events(lines, at, current, known) == []
  {
  }

  lemma GroupedEnd(acc: Parsed)
    ensures GroupedOnto(acc, []) == acc
  {
  }

  lemma GroupedStep(acc: Parsed, event: Event, later: seq<Event>)
    ensures GroupedOnto(acc, [event] + later) == GroupedOnto(Absorb(acc, event), later)
  {
    assert ([event] + later)[1..] == later;
  }

  /** One turn of the scan. */
  lemma EventsStep(lines: seq<string>, i: nat, current: Option<string>, known: Option<set<string>>)
    requires i < |lines|
    ensures IsSearch(lines[i]) ==>
              var (event, used) := ReadBlock(lines[i + 1..], i, current);
              i + 1 + used <= |lines| &&
              Events(lines[i..], i, current, known)
                == [event] + Events(lines[i + 1 + used..], i + 1 + used, current, known)
    ensures !IsSearch(lines[i]) ==>
              Events(lines[i..], i, current, known)
                == Events(lines[i + 1..], i + 1, Target(lines[i], current, known), known)
  {
    hide IsSearch, Target, ReadBlock;
    assert lines[i..][0] == lines[i] && lines[i..][1..] == lines[i + 1..];
    var (event, used) := ReadBlock(lines[i + 1..], i, current);
    assert lines[i..][1 + used..] == lines[i + 1 + used..];
  }

  lemma {:induction false} BodyLengthIs(lines: seq<string>, k: nat)
    requires k <= |lines|
    requires forall i :: 0 <= i < k ==> !IsMarker(lines[i])
    requires k < |lines| ==> IsMarker(lines[k])
    ensures BodyLength(lines) == k
  {
    if k > 0 {
      BodyLengthIs(lines[1..], k - 1);
    }
  }
}
