/**
 Combining whole files with applied edits, all or nothing: when anything is wrong the caller gets errors
 and must write no file at all.
 */
module EditResolve {
  import opened Options
  import opened EditText
  import opened EditParser
  import opened EditApply
  import EditParserLaws

  /** How a block was taken. */
  datatype Via = Ladder(tier: Tier) | WholeFromEmptySearch | Superseded

  datatype EditApplied = EditApplied(path: string, block: nat, via: Via, ratio: real, line: Option<nat>)

  datatype Cause = Malformed(fault: Fault) | PlaceholderPath | MislabelledMarker | NoBase | Unappliable(why: Reason)

  /** What the human-readable text of an error is about. */
  datatype Detail = Detail(path: Option<string>, cause: Cause)

  datatype EditFailure = EditFailure(path: string, block: nat, cause: Cause, search: string, detail: Detail)

  datatype ResolveResult = ResolveResult(
    files: seq<(string, string)>, errors: seq<Detail>, failures: seq<EditFailure>, applied: seq<EditApplied>)

  /** The similarity the ladder uses, and which paths are the prompt's own examples. */
  datatype Env = Env(sim: Similarity, placeholder: string -> bool)

  /** The resolver's local variables. */
  datatype Progress = Progress(
    resolved: map<string, string>, order: seq<string>, wholeNew: set<string>,
    errors: seq<Detail>, failures: seq<EditFailure>, applied: seq<EditApplied>)
  {
    function Put(path: string, content: string): Progress {
      this.(order := if path in resolved then order else order + [path], resolved := resolved[path := content])
    }

    function Fail(failure: EditFailure): Progress {
      this.(errors := errors + [failure.detail], failures := failures + [failure])
    }

    function Record(more: seq<EditApplied>): Progress {
      this.(applied := applied + more)
    }
  }

  predicate HoldsEditMarkers(content: string) {
    var lines := SplitLines(content);
    exists i :: 0 <= i < |lines| && IsSearch(lines[i])
  }

  predicate LooksLikeALabel(path: string) {
    var p := Strip(path);
    exists i :: 0 <= i < |p| && IsSpace(p[i])
  }

  function TakeWhole(p: Progress, path: string, content: string, existing: map<string, string>): Progress {
    if path in existing && HoldsEditMarkers(content) then p
    else
      p.Put(path, content).(wholeNew := if path in existing then p.wholeNew else p.wholeNew + {path})
  }

  function TakeNote(p: Progress, note: Note): Progress {
    if note.path.Some? && note.path.value in p.wholeNew then
      p.Record([EditApplied(note.path.value, 0, Superseded, 0.0, None)])
    else
      p.Fail(EditFailure(note.path.GetOr(""), 0, Malformed(note.fault), "", Detail(note.path, Malformed(note.fault))))
  }

  /** The failure of a whole file, not of one of its blocks. */
  function FileFailure(fe: Edits, cause: Cause): EditFailure {
    EditFailure(fe.path, 0, cause, if fe.blocks == [] then "" else fe.blocks[0].search, Detail(Some(fe.path), cause))
  }

  function Records(path: string, applied: seq<AppliedBlock>): seq<EditApplied> {
    if applied == [] then []
    else
      var a := applied[0];
      [EditApplied(path, a.index, Ladder(a.tier), a.ratio, a.line)] + Records(path, applied[1..])
  }

  function TakeFile(env: Env, p: Progress, fe: Edits, existing: map<string, string>): Progress {
    if fe.path !in existing then
      if |fe.blocks| == 1 && fe.blocks[0].search == "" then
        p.Put(fe.path, fe.blocks[0].replace).Record([EditApplied(fe.path, 1, WholeFromEmptySearch, 1.0, None)])
      else if env.placeholder(fe.path) then p.Fail(FileFailure(fe, PlaceholderPath))
      else if LooksLikeALabel(fe.path) then p.Fail(FileFailure(fe, MislabelledMarker))
      else p.Fail(FileFailure(fe, NoBase))
    else
      match ApplyFrom(env.sim, existing[fe.path], fe.blocks, 0, [])
      case Failed(index, block, reason, _) =>
        p.Fail(EditFailure(fe.path, index, Unappliable(reason), block.search,
                           Detail(Some(fe.path), Unappliable(reason))))
      case Landed(content, applied) => p.Put(fe.path, content).Record(Records(fe.path, applied))
  }

  function TakeWholes(p: Progress, whole: seq<(string, string)>, existing: map<string, string>): Progress
    decreases |whole|
  {
    if whole == [] then p
    else TakeWholes(TakeWhole(p, whole[0].0, whole[0].1, existing), whole[1..], existing)
  }

  function TakeNotes(p: Progress, notes: seq<Note>): Progress
    decreases |notes|
  {
    if notes == [] then p else TakeNotes(TakeNote(p, notes[0]), notes[1..])
  }

  function TakeFiles(env: Env, p: Progress, files: seq<Edits>, existing: map<string, string>): Progress
    decreases |files|
  {
    if files == [] then p else TakeFiles(env, TakeFile(env, p, files[0], existing), files[1..], existing)
  }

  const NOTHING_YET := Progress(map[], [], {}, [], [], [])

  function Resolved(env: Env, whole: seq<(string, string)>, parsed: Parsed, existing: map<string, string>): Progress {
    TakeFiles(env, TakeNotes(TakeWholes(NOTHING_YET, whole, existing), parsed.notes), parsed.files, existing)
  }

  function Outputs(p: Progress): seq<(string, string)> {
    seq(|p.order|, i requires 0 <= i < |p.order| =>
      (p.order[i], if p.order[i] in p.resolved then p.resolved[p.order[i]] else ""))
  }

  function ResultOf(p: Progress): ResolveResult {
    ResolveResult(Outputs(p), p.errors, p.failures, p.applied)
  }

  method ResolveEdits(env: Env, whole: seq<(string, string)>, text: string, existing: map<string, string>)
    returns (r: ResolveResult)
    requires Sound(env.sim)
    ensures r == ResultOf(Resolved(env, whole, ParsedLines(SplitLines(text), Some(existing.Keys)), existing))
  {
    hide TakeWhole, TakeNote, TakeFile, ParsedLines, SplitLines, Sound, Outputs;
    var p := NOTHING_YET;
    assert whole[0..] == whole;
    for i := 0 to |whole|
      invariant TakeWholes(p, whole[i..], existing) == TakeWholes(NOTHING_YET, whole, existing)
    {
      assert whole[i..][0] == whole[i] && whole[i..][1..] == whole[i + 1..];
      p := TakeWhole(p, whole[i].0, whole[i].1, existing);
    }
    var parsed := ParseEditBlocks(text, Some(existing.Keys));
    ghost var value := ParsedLines(SplitLines(text), Some(existing.Keys));
    ghost var p1 := p;
    assert value.notes[0..] == value.notes;
    for i := 0 to |parsed.malformed|
      invariant parsed.Holds(value)
      invariant TakeNotes(p, value.notes[i..]) == TakeNotes(p1, value.notes)
    {
      assert value.notes[i..][0] == value.notes[i] && value.notes[i..][1..] == value.notes[i + 1..];
      p := TakeNote(p, Note(parsed.malformed[i], parsed.malformedPaths[i]));
    }
    ghost var p2 := p;
    assert value.files[0..] == value.files;
    for i := 0 to |parsed.files|
      invariant parsed.Holds(value)
      invariant TakeFiles(env, p, value.files[i..], existing) == TakeFiles(env, p2, value.files, existing)
    {
      assert value.files[i..][0] == value.files[i] && value.files[i..][1..] == value.files[i + 1..];
      var fe := Edits(parsed.files[i].path, parsed.files[i].blocks);
      assert fe == value.files[i];
      p := ResolveFile(env, p, fe, existing);
    }
    r := ResolveResult(Outputs(p), p.errors, p.failures, p.applied);
  }

  method ResolveFile(env: Env, p: Progress, fe: Edits, existing: map<string, string>) returns (p': Progress)
    requires Sound(env.sim)
    ensures p' == TakeFile(env, p, fe, existing)
  {
    hide ApplyFrom, Sound, LooksLikeALabel;
    if fe.path !in existing {
      if |fe.blocks| == 1 && fe.blocks[0].search == "" {
        return p.Put(fe.path, fe.blocks[0].replace)
                .Record([EditApplied(fe.path, 1, WholeFromEmptySearch, 1.0, None)]);
      }
      var cause := if env.placeholder(fe.path) then PlaceholderPath
                   else if LooksLikeALabel(fe.path) then MislabelledMarker else NoBase;
      return p.Fail(FileFailure(fe, cause));
    }
    var outcome := ApplySearchReplace(env.sim, existing[fe.path], fe.blocks);
    match outcome {
      case Failed(index, block, reason, _) =>
        p' := p.Fail(EditFailure(fe.path, index, Unappliable(reason), block.search,
                                 Detail(Some(fe.path), Unappliable(reason))));
      case Landed(content, applied) =>
        p' := p.Put(fe.path, content).Record(Records(fe.path, applied));
    }
  }

  // ----- what a resolve promises

  /** The invariant of the resolver's variables. */
  ghost predicate Consistent(p: Progress) {
    && |p.errors| == |p.failures|
    && (forall i :: 0 <= i < |p.errors| ==> p.failures[i].detail == p.errors[i])
    && (forall i, j :: 0 <= i < j < |p.order| ==> p.order[i] != p.order[j])
    && (forall path :: path in p.order <==> path in p.resolved)
  }

  lemma {:induction false} WholesKeepConsistent(p: Progress, whole: seq<(string, string)>,
                                                existing: map<string, string>)
    requires Consistent(p)
    ensures Consistent(TakeWholes(p, whole, existing))
    ensures TakeWholes(p, whole, existing).(resolved := map[], order := [], wholeNew := {})
         == p.(resolved := map[], order := [], wholeNew := {})
    decreases |whole|
  {
    hide HoldsEditMarkers;
    if whole != [] {
      WholesKeepConsistent(TakeWhole(p, whole[0].0, whole[0].1, existing), whole[1..], existing);
    }
  }

  lemma {:induction false} NotesKeepConsistent(p: Progress, notes: seq<Note>)
    requires Consistent(p)
    ensures Consistent(TakeNotes(p, notes))
    ensures |TakeNotes(p, notes).errors| >= |p.errors|
    decreases |notes|
  {
    if notes != [] {
      NotesKeepConsistent(TakeNote(p, notes[0]), notes[1..]);
    }
  }

  lemma FileKeepsConsistent(env: Env, p: Progress, fe: Edits, existing: map<string, string>)
    requires Consistent(p)
    ensures Consistent(TakeFile(env, p, fe, existing))
    ensures |TakeFile(env, p, fe, existing).errors| >= |p.errors|
  {
    hide ApplyFrom, LooksLikeALabel;
  }

  lemma {:induction false} FilesKeepConsistent(env: Env, p: Progress, files: seq<Edits>, existing: map<string, string>)
    requires Consistent(p)
    ensures Consistent(TakeFiles(env, p, files, existing))
    ensures |TakeFiles(env, p, files, existing).errors| >= |p.errors|
    decreases |files|
  {
    hide TakeFile, Consistent;
    if files != [] {
      FileKeepsConsistent(env, p, files[0], existing);
      FilesKeepConsistent(env, TakeFile(env, p, files[0], existing), files[1..], existing);
    }
  }

  /** Errors and failures are parallel, and no output path is named twice. */
  lemma ResultIsConsistent(env: Env, whole: seq<(string, string)>, parsed: Parsed, existing: map<string, string>)
    ensures var r := ResultOf(Resolved(env, whole, parsed, existing));
            && |r.errors| == |r.failures|
            && (forall i :: 0 <= i < |r.errors| ==> r.failures[i].detail == r.errors[i])
            && (forall i, j :: 0 <= i < j < |r.files| ==> r.files[i].0 != r.files[j].0)
  {
    hide TakeWholes, TakeNotes, TakeFiles;
    WholesKeepConsistent(NOTHING_YET, whole, existing);
    NotesKeepConsistent(TakeWholes(NOTHING_YET, whole, existing), parsed.notes);
    FilesKeepConsistent(env, TakeNotes(TakeWholes(NOTHING_YET, whole, existing), parsed.notes), parsed.files, existing);
  }

  // ----- with no error, every parsed block is recorded

  /** The blocks a record speaks for, leaving out the superseded starts. */
  function Marks(applied: seq<EditApplied>): seq<(string, nat)> {
    if applied == [] then []
    else (if applied[0].via.Superseded? then [] else [(applied[0].path, applied[0].block)]) + Marks(applied[1..])
  }

  function BlockMarks(path: string, n: nat): seq<(string, nat)> {
    if n == 0 then [] else BlockMarks(path, n - 1) + [(path, n)]
  }

  /** Every block of every file, in order. */
  function AllMarks(files: seq<Edits>): seq<(string, nat)> {
    if files == [] then [] else BlockMarks(files[0].path, |files[0].blocks|) + AllMarks(files[1..])
  }

  lemma {:induction false} MarksConcat(a: seq<EditApplied>, b: seq<EditApplied>)
    ensures Marks(a + b) == Marks(a) + Marks(b)
  {
    if a == [] {
      assert a + b == b;
    } else {
      assert (a + b)[1..] == a[1..] + b;
      MarksConcat(a[1..], b);
    }
  }

  lemma {:induction false} RecordsAppend(path: string, applied: seq<AppliedBlock>, a: AppliedBlock)
    ensures Records(path, applied + [a])
         == Records(path, applied) + [EditApplied(path, a.index, Ladder(a.tier), a.ratio, a.line)]
  {
    if applied == [] {
      assert (applied + [a])[1..] == [];
    } else {
      assert (applied + [a])[1..] == applied[1..] + [a];
      RecordsAppend(path, applied[1..], a);
    }
  }

  /** A file whose blocks all landed is recorded block by block. */
  lemma {:induction false} LandedIsRecorded(env: Env, path: string, content: string, blocks: seq<EditBlock>, k: nat,
                                            applied: seq<AppliedBlock>)
    requires k <= |blocks| && Marks(Records(path, applied)) == BlockMarks(path, k)
    ensures var r := ApplyFrom(env.sim, content, blocks, k, applied);
            r.Landed? ==> Marks(Records(path, r.applied)) == BlockMarks(path, |blocks|)
    decreases |blocks| - k
  {
    hide Outcome;
    if k < |blocks| && Outcome(env.sim, content, blocks[k]).Hit? {
      var outcome := Outcome(env.sim, content, blocks[k]);
      var a := AppliedBlock(k + 1, outcome.tier, outcome.ratio, outcome.line);
      RecordsAppend(path, applied, a);
      var record := EditApplied(path, a.index, Ladder(a.tier), a.ratio, a.line);
      MarksConcat(Records(path, applied), [record]);
      assert Marks([record]) == [(path, k + 1)] + Marks([record][1..]);
      LandedIsRecorded(env, path, outcome.content, blocks, k + 1, applied + [a]);
    }
  }

  lemma FileIsRecorded(env: Env, p: Progress, fe: Edits, existing: map<string, string>)
    requires |TakeFile(env, p, fe, existing).errors| == |p.errors|
    ensures Marks(TakeFile(env, p, fe, existing).applied) == Marks(p.applied) + BlockMarks(fe.path, |fe.blocks|)
  {
    hide ApplyFrom, LooksLikeALabel;
    if fe.path !in existing {
      var record := EditApplied(fe.path, 1, WholeFromEmptySearch, 1.0, None);
      MarksConcat(p.applied, [record]);
      assert Marks([record]) == [(fe.path, 1)] + Marks([record][1..]);
      assert BlockMarks(fe.path, 1) == BlockMarks(fe.path, 0) + [(fe.path, 1)];
    } else {
      LandedIsRecorded(env, fe.path, existing[fe.path], fe.blocks, 0, []);
      MarksConcat(p.applied, Records(fe.path, ApplyFrom(env.sim, existing[fe.path], fe.blocks, 0, []).applied));
    }
  }

  lemma {:induction false} FilesAreRecorded(env: Env, p: Progress, files: seq<Edits>, existing: map<string, string>)
    requires Consistent(p) && |TakeFiles(env, p, files, existing).errors| == |p.errors|
    ensures Marks(TakeFiles(env, p, files, existing).applied) == Marks(p.applied) + AllMarks(files)
    decreases |files|
  {
    hide TakeFile, Consistent;
    if files != [] {
      var next := TakeFile(env, p, files[0], existing);
      FileKeepsConsistent(env, p, files[0], existing);
      FilesKeepConsistent(env, next, files[1..], existing);
      FileIsRecorded(env, p, files[0], existing);
      FilesAreRecorded(env, next, files[1..], existing);
    }
  }

  lemma {:induction false} NotesMarkNothing(p: Progress, notes: seq<Note>)
    requires Marks(p.applied) == []
    ensures Marks(TakeNotes(p, notes).applied) == []
    decreases |notes|
  {
    if notes != [] {
      var next := TakeNote(p, notes[0]);
      if next.applied != p.applied {
        MarksConcat(p.applied, [EditApplied(notes[0].path.value, 0, Superseded, 0.0, None)]);
        assert [EditApplied(notes[0].path.value, 0, Superseded, 0.0, None)][1..] == [];
      }
      NotesMarkNothing(next, notes[1..]);
    }
  }

  /** A resolve without errors has recorded every parsed block exactly once, in order. */
  lemma NoErrorMeansEveryBlockLanded(env: Env, whole: seq<(string, string)>, parsed: Parsed,
                                     existing: map<string, string>)
    requires ResultOf(Resolved(env, whole, parsed, existing)).errors == []
    ensures Marks(ResultOf(Resolved(env, whole, parsed, existing)).applied) == AllMarks(parsed.files)
  {
    hide TakeWholes, TakeNotes, TakeFiles;
    var p1 := TakeWholes(NOTHING_YET, whole, existing);
    var p2 := TakeNotes(p1, parsed.notes);
    WholesKeepConsistent(NOTHING_YET, whole, existing);
    NotesKeepConsistent(p1, parsed.notes);
    FilesKeepConsistent(env, p2, parsed.files, existing);
    assert p1.applied == [];
    NotesMarkNothing(p1, parsed.notes);
    FilesAreRecorded(env, p2, parsed.files, existing);
  }

  // ----- the content of each output

  lemma {:induction false} LaterFilesLeaveAlone(env: Env, p: Progress, files: seq<Edits>,
                                                existing: map<string, string>, path: string)
    requires forall i :: 0 <= i < |files| ==> files[i].path != path
    requires path in p.resolved
    ensures var q := TakeFiles(env, p, files, existing);
            path in q.resolved && q.resolved[path] == p.resolved[path]
    decreases |files|
  {
    hide ApplyFrom, LooksLikeALabel, Records;
    if files != [] {
      LaterFilesLeaveAlone(env, TakeFile(env, p, files[0], existing), files[1..], existing, path);
    }
  }

  /** Without errors, the output of an edited file is its repository content with all its blocks applied. */
  lemma {:induction false} EditedFilesHoldTheirEdits(env: Env, p: Progress, files: seq<Edits>,
                                                     existing: map<string, string>, k: nat)
    requires DistinctPaths(files) && k < |files| && files[k].path in existing
    requires Consistent(p) && |TakeFiles(env, p, files, existing).errors| == |p.errors|
    ensures var q, r := TakeFiles(env, p, files, existing),
                        ApplyFrom(env.sim, existing[files[k].path], files[k].blocks, 0, []);
            files[k].path in q.resolved && r.Landed? && q.resolved[files[k].path] == r.content
    decreases |files|
  {
    hide Consistent, ApplyFrom, Records, LooksLikeALabel;
    var next := TakeFile(env, p, files[0], existing);
    FileKeepsConsistent(env, p, files[0], existing);
    FilesKeepConsistent(env, next, files[1..], existing);
    if k > 0 {
      EditedFilesHoldTheirEdits(env, next, files[1..], existing, k - 1);
    } else {
      forall i | 0 <= i < |files[1..]| ensures files[1..][i].path != files[0].path {
        assert files[1..][i] == files[i + 1];
      }
      LaterFilesLeaveAlone(env, next, files[1..], existing, files[0].path);
    }
  }

  /** The same, of the result: every edited existing file is written as its content with every block landed. */
  lemma ResultHoldsTheEdits(env: Env, whole: seq<(string, string)>, text: string, existing: map<string, string>, k: nat)
    requires var parsed := ParsedLines(SplitLines(text), Some(existing.Keys));
             && ResultOf(Resolved(env, whole, parsed, existing)).errors == []
             && k < |parsed.files| && parsed.files[k].path in existing
    ensures var parsed := ParsedLines(SplitLines(text), Some(existing.Keys));
            var fe := parsed.files[k];
            var r := ApplyFrom(env.sim, existing[fe.path], fe.blocks, 0, []);
            r.Landed? && (fe.path, r.content) in ResultOf(Resolved(env, whole, parsed, existing)).files
  {
    hide TakeWholes, TakeNotes, TakeFiles, ParsedLines, SplitLines, ApplyFrom;
    var lines := SplitLines(text);
    var parsed := ParsedLines(lines, Some(existing.Keys));
    EditParserLaws.ParseKeepsOrder(lines, Some(existing.Keys), "");
    var p1 := TakeWholes(NOTHING_YET, whole, existing);
    var p2 := TakeNotes(p1, parsed.notes);
    WholesKeepConsistent(NOTHING_YET, whole, existing);
    NotesKeepConsistent(p1, parsed.notes);
    FilesKeepConsistent(env, p2, parsed.files, existing);
    EditedFilesHoldTheirEdits(env, p2, parsed.files, existing, k);
    var q := Resolved(env, whole, parsed, existing);
    var path := parsed.files[k].path;
    assert path in q.order;
    var i :| 0 <= i < |q.order| && q.order[i] == path;
    assert Outputs(q)[i] == (path, q.resolved[path]);
  }

  // ----- nothing else is written

  /** A whole file the resolver takes: any but an existing path whose body is edit markers. */
  predicate WholeGives(whole: (string, string), existing: map<string, string>, path: string, content: string) {
    whole == (path, content) && !(path in existing && HoldsEditMarkers(content))
  }

  /** What one file's edits make of it: all of them landed, or a new file from one empty SEARCH. */
  predicate EditGives(env: Env, fe: Edits, existing: map<string, string>, path: string, content: string) {
    && fe.path == path
    && if path in existing then
         var r := ApplyFrom(env.sim, existing[path], fe.blocks, 0, []);
         r.Landed? && r.content == content
       else |fe.blocks| == 1 && fe.blocks[0].search == "" && fe.blocks[0].replace == content
  }

  lemma {:induction false} WholesWriteOnlyWholes(p: Progress, whole: seq<(string, string)>,
                                                 existing: map<string, string>, path: string)
    requires path in TakeWholes(p, whole, existing).resolved
    ensures var content := TakeWholes(p, whole, existing).resolved[path];
      || (path in p.resolved && p.resolved[path] == content)
      || exists k :: 0 <= k < |whole| && WholeGives(whole[k], existing, path, content)
    decreases |whole|
  {
    hide HoldsEditMarkers;
    if whole != [] {
      var next := TakeWhole(p, whole[0].0, whole[0].1, existing);
      WholesWriteOnlyWholes(next, whole[1..], existing, path);
      var content := TakeWholes(next, whole[1..], existing).resolved[path];
      if path in next.resolved && next.resolved[path] == content {
        assert (path in p.resolved && p.resolved[path] == content) || WholeGives(whole[0], existing, path, content);
      } else {
        var k :| 0 <= k < |whole[1..]| && WholeGives(whole[1..][k], existing, path, content);
        assert whole[k + 1] == whole[1..][k];
      }
    }
  }

  lemma {:induction false} NotesWriteNothing(p: Progress, notes: seq<Note>)
    ensures TakeNotes(p, notes).resolved == p.resolved
    decreases |notes|
  {
    if notes != [] {
      NotesWriteNothing(TakeNote(p, notes[0]), notes[1..]);
    }
  }

  lemma {:induction false} FilesWriteOnlyEdits(env: Env, p: Progress, files: seq<Edits>, existing: map<string, string>,
                                               path: string)
    requires path in TakeFiles(env, p, files, existing).resolved
    ensures var content := TakeFiles(env, p, files, existing).resolved[path];
      || (path in p.resolved && p.resolved[path] == content)
      || exists k :: 0 <= k < |files| && EditGives(env, files[k], existing, path, content)
    decreases |files|
  {
    hide ApplyFrom, Records, LooksLikeALabel;
    if files != [] {
      var next := TakeFile(env, p, files[0], existing);
      FilesWriteOnlyEdits(env, next, files[1..], existing, path);
      var content := TakeFiles(env, next, files[1..], existing).resolved[path];
      if path in next.resolved && next.resolved[path] == content {
        assert (path in p.resolved && p.resolved[path] == content) || EditGives(env, files[0], existing, path, content);
      } else {
        var k :| 0 <= k < |files[1..]| && EditGives(env, files[1..][k], existing, path, content);
        assert files[k + 1] == files[1..][k];
      }
    }
  }

  /**
   Errors or not, every output is a whole file the answer gave or one parsed file's edits, all landed:
   nothing is half applied and no other path is written.
   */
  lemma NothingElseIsWritten(env: Env, whole: seq<(string, string)>, parsed: Parsed, existing: map<string, string>,
                             i: nat)
    requires i < |ResultOf(Resolved(env, whole, parsed, existing)).files|
    ensures var (path, content) := ResultOf(Resolved(env, whole, parsed, existing)).files[i];
      || (exists k :: 0 <= k < |whole| && WholeGives(whole[k], existing, path, content))
      || (exists k :: 0 <= k < |parsed.files| && EditGives(env, parsed.files[k], existing, path, content))
  {
    hide TakeWholes, TakeNotes, TakeFiles, WholeGives, EditGives;
    var p1 := TakeWholes(NOTHING_YET, whole, existing);
    var p2 := TakeNotes(p1, parsed.notes);
    WholesKeepConsistent(NOTHING_YET, whole, existing);
    NotesKeepConsistent(p1, parsed.notes);
    FilesKeepConsistent(env, p2, parsed.files, existing);
    var q := Resolved(env, whole, parsed, existing);
    var path := q.order[i];
    FilesWriteOnlyEdits(env, p2, parsed.files, existing, path);
    NotesWriteNothing(p1, parsed.notes);
    if path in p2.resolved {
      WholesWriteOnlyWholes(NOTHING_YET, whole, existing, path);
    }
  }
}
