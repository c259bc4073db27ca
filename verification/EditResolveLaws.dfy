/**
 The whole result of a resolve, told item by item: which whole files and edits are written, in what order, and
 which notes and files become errors. The resolver's loops over shared variables come to exactly this.
 */
module EditResolveLaws {
  import opened Options
  import opened EditText
  import opened EditParser
  import opened EditApply
  import opened EditResolve

  /** Each landed block is recorded with its number, its tier, how alike the window was, and the line. */
  lemma {:induction false} RecordsAre(path: string, applied: seq<AppliedBlock>)
    ensures |Records(path, applied)| == |applied|
    ensures forall i :: 0 <= i < |applied| ==>
              var b := applied[i];
              Records(path, applied)[i] == EditApplied(path, b.index, Ladder(b.tier), b.ratio, b.line)
  {
    if applied != [] {
      RecordsAre(path, applied[1..]);
    }
  }

  // ----- a dict as the list of its writes

  /** What is written to a path last. */
  function LastTo(writes: seq<(string, string)>, path: string): Option<string> {
    if writes == [] then None
    else if writes[|writes| - 1].0 == path then Some(writes[|writes| - 1].1)
    else LastTo(writes[..|writes| - 1], path)
  }

  /** The paths written to, in the order of their first writes. */
  function FirstOrder(writes: seq<(string, string)>): seq<string> {
    if writes == [] then []
    else
      var before := FirstOrder(writes[..|writes| - 1]);
      if writes[|writes| - 1].0 in before then before else before + [writes[|writes| - 1].0]
  }

  lemma {:induction false} LastToIs(writes: seq<(string, string)>, k: nat)
    requires k < |writes| && forall j :: k < j < |writes| ==> writes[j].0 != writes[k].0
    ensures LastTo(writes, writes[k].0) == Some(writes[k].1)
    decreases |writes|
  {
    if k < |writes| - 1 {
      assert writes[..|writes| - 1][k] == writes[k];
      LastToIs(writes[..|writes| - 1], k);
    }
  }

  lemma {:induction false} OrderHolds(writes: seq<(string, string)>, path: string)
    ensures path in FirstOrder(writes) <==> LastTo(writes, path).Some?
    ensures path in FirstOrder(writes) <==> exists k :: 0 <= k < |writes| && writes[k].0 == path
  {
    if writes != [] {
      var before := writes[..|writes| - 1];
      OrderHolds(before, path);
      if k :| 0 <= k < |writes| && writes[k].0 == path && writes[|writes| - 1].0 != path {
        assert before[k].0 == path;
      }
      if k :| 0 <= k < |before| && before[k].0 == path {
        assert writes[k].0 == path;
      }
    }
  }

  /** Each path comes up at its first write, and first writes come up in order. */
  lemma {:induction false} OrderIsFirst(writes: seq<(string, string)>, i: nat) returns (k: nat)
    requires i < |FirstOrder(writes)|
    ensures k < |writes| && writes[k].0 == FirstOrder(writes)[i]
    ensures FirstOrder(writes[..k]) == FirstOrder(writes)[..i]
  {
    var before := writes[..|writes| - 1];
    if i < |FirstOrder(before)| {
      k := OrderIsFirst(before, i);
      assert before[..k] == writes[..k] && FirstOrder(before)[..i] == FirstOrder(writes)[..i];
    } else {
      k := |writes| - 1;
      assert FirstOrder(writes)[..i] == FirstOrder(before);
    }
  }

  ghost predicate IsDictOf(p: Progress, writes: seq<(string, string)>) {
    && p.order == FirstOrder(writes)
    && forall path :: LastTo(writes, path) == if path in p.resolved then Some(p.resolved[path]) else None
  }

  lemma PutAppends(p: Progress, writes: seq<(string, string)>, path: string, content: string)
    requires IsDictOf(p, writes)
    ensures IsDictOf(p.Put(path, content), writes + [(path, content)])
  {
    var more := writes + [(path, content)];
    assert more[..|more| - 1] == writes;
    OrderHolds(writes, path);
  }

  // ----- the items

  /** A whole file for an existing path whose body holds a SEARCH line is an edit set, not content. */
  predicate Accepted(whole: (string, string), existing: map<string, string>) {
    !(whole.0 in existing && exists line <- SplitLines(whole.1) :: IsSearch(line))
  }

  function WholeWrites(whole: seq<(string, string)>, existing: map<string, string>): seq<(string, string)> {
    if whole == [] then []
    else (if Accepted(whole[0], existing) then [whole[0]] else []) + WholeWrites(whole[1..], existing)
  }

  predicate GivenWhole(whole: seq<(string, string)>, path: string) {
    exists k :: 0 <= k < |whole| && whole[k].0 == path
  }

  lemma GivenUnfolds(whole: seq<(string, string)>, path: string)
    requires whole != []
    ensures GivenWhole(whole, path) <==> whole[0].0 == path || GivenWhole(whole[1..], path)
  {
    if k :| 0 < k < |whole| && whole[k].0 == path {
      assert whole[1..][k - 1].0 == path;
    }
    if k :| 0 <= k < |whole[1..]| && whole[1..][k].0 == path {
      assert whole[k + 1].0 == path;
    }
  }

  /** A broken block for a new path that the answer also gives as a whole file stands down. */
  predicate StandsDown(whole: seq<(string, string)>, existing: map<string, string>, note: Note) {
    note.path.Some? && note.path.value !in existing && GivenWhole(whole, note.path.value)
  }

  function NoteFailure(note: Note): EditFailure {
    EditFailure(if note.path.Some? then note.path.value else "", 0, Malformed(note.fault), "",
                Detail(note.path, Malformed(note.fault)))
  }

  function NoteFailures(whole: seq<(string, string)>, existing: map<string, string>, notes: seq<Note>)
    : seq<EditFailure>
  {
    if notes == [] then []
    else
      (if StandsDown(whole, existing, notes[0]) then [] else [NoteFailure(notes[0])])
      + NoteFailures(whole, existing, notes[1..])
  }

  function NoteRecords(whole: seq<(string, string)>, existing: map<string, string>, notes: seq<Note>)
    : seq<EditApplied>
  {
    if notes == [] then []
    else
      (if StandsDown(whole, existing, notes[0]) then [EditApplied(notes[0].path.value, 0, Superseded, 0.0, None)]
       else [])
      + NoteRecords(whole, existing, notes[1..])
  }

  /** A path with whitespace inside it. */
  predicate SpaceInside(path: string) {
    exists a, b, c :: 0 <= a < b < c < |path| && !IsSpace(path[a]) && IsSpace(path[b]) && !IsSpace(path[c])
  }

  /** What one parsed file comes to: content to write and records of it, or a failure. */
  datatype Fate = Written(content: string, records: seq<EditApplied>) | Refused(failure: EditFailure)

  function FirstSearch(fe: Edits): string {
    if fe.blocks == [] then "" else fe.blocks[0].search
  }

  /** A new file is written from a single empty SEARCH, and nothing else; an existing one when every block lands. */
  function FateOf(env: Env, existing: map<string, string>, fe: Edits): Fate {
    if fe.path in existing then
      match ApplyFrom(env.sim, existing[fe.path], fe.blocks, 0, [])
      case Landed(content, applied) => Written(content, Records(fe.path, applied))
      case Failed(index, block, reason, _) =>
        Refused(EditFailure(fe.path, index, Unappliable(reason), block.search,
                            Detail(Some(fe.path), Unappliable(reason))))
    else if |fe.blocks| == 1 && fe.blocks[0].search == "" then
      Written(fe.blocks[0].replace, [EditApplied(fe.path, 1, WholeFromEmptySearch, 1.0, None)])
    else
      var cause := if env.placeholder(fe.path) then PlaceholderPath
                   else if SpaceInside(fe.path) then MislabelledMarker else NoBase;
      Refused(EditFailure(fe.path, 0, cause, FirstSearch(fe), Detail(Some(fe.path), cause)))
  }

  function WritesOf(env: Env, existing: map<string, string>, fe: Edits): seq<(string, string)> {
    match FateOf(env, existing, fe)
    case Written(content, _) => [(fe.path, content)]
    case Refused(_) => []
  }

  function FailuresOf(env: Env, existing: map<string, string>, fe: Edits): seq<EditFailure> {
    match FateOf(env, existing, fe)
    case Written(_, _) => []
    case Refused(failure) => [failure]
  }

  function RecordsOf(env: Env, existing: map<string, string>, fe: Edits): seq<EditApplied> {
    match FateOf(env, existing, fe)
    case Written(_, records) => records
    case Refused(_) => []
  }

  function FileWrites(env: Env, existing: map<string, string>, files: seq<Edits>): seq<(string, string)> {
    if files == [] then [] else WritesOf(env, existing, files[0]) + FileWrites(env, existing, files[1..])
  }

  function FileFailures(env: Env, existing: map<string, string>, files: seq<Edits>): seq<EditFailure> {
    if files == [] then [] else FailuresOf(env, existing, files[0]) + FileFailures(env, existing, files[1..])
  }

  function FileRecords(env: Env, existing: map<string, string>, files: seq<Edits>): seq<EditApplied> {
    if files == [] then [] else RecordsOf(env, existing, files[0]) + FileRecords(env, existing, files[1..])
  }

  // ----- the resolver's loops, one by one

  lemma {:induction false} WholesAre(p: Progress, writes: seq<(string, string)>, whole: seq<(string, string)>,
                                     existing: map<string, string>)
    requires IsDictOf(p, writes)
    ensures var q := TakeWholes(p, whole, existing);
      && IsDictOf(q, writes + WholeWrites(whole, existing))
      && q.failures == p.failures && q.applied == p.applied
      && forall path ::
           path in q.wholeNew <==> path in p.wholeNew || (path !in existing && GivenWhole(whole, path))
    decreases |whole|
  {
    assert whole == [] ==> WholeWrites(whole, existing) == [] && forall path :: !GivenWhole(whole, path);
    if whole == [] {
      assert writes + [] == writes;
    } else {
      WholesUnfold(whole, existing);
      AcceptedIff(whole[0], existing);
      hide IsDictOf, GivenWhole, Accepted, HoldsEditMarkers, WholeWrites;
      var next := TakeWhole(p, whole[0].0, whole[0].1, existing);
      var now := if Accepted(whole[0], existing) then [whole[0]] else [];
      TakeOneWhole(p, writes, whole[0], existing);
      WholesAre(next, writes + now, whole[1..], existing);
      Regroup(writes, now, WholeWrites(whole[1..], existing));
      forall path ensures GivenWhole(whole, path) <==> whole[0].0 == path || GivenWhole(whole[1..], path) {
        GivenUnfolds(whole, path);
      }
    }
  }

  lemma WholesUnfold(whole: seq<(string, string)>, existing: map<string, string>)
    requires whole != []
    ensures WholeWrites(whole, existing)
         == (if Accepted(whole[0], existing) then [whole[0]] else []) + WholeWrites(whole[1..], existing)
  {
  }

  lemma TakeOneWhole(p: Progress, writes: seq<(string, string)>, one: (string, string), existing: map<string, string>)
    requires IsDictOf(p, writes)
    ensures var q := TakeWhole(p, one.0, one.1, existing);
      && IsDictOf(q, writes + if Accepted(one, existing) then [one] else [])
      && q.failures == p.failures && q.applied == p.applied
      && q.wholeNew == p.wholeNew + if one.0 in existing then {} else {one.0}
  {
    AcceptedIff(one, existing);
    hide Accepted, HoldsEditMarkers, IsDictOf;
    if Accepted(one, existing) {
      PutAppends(p, writes, one.0, one.1);
      DictIgnores(p.Put(one.0, one.1), TakeWhole(p, one.0, one.1, existing), writes + [one]);
    } else {
      assert writes + [] == writes;
    }
  }

  lemma AcceptedIff(whole: (string, string), existing: map<string, string>)
    ensures Accepted(whole, existing) <==> !(whole.0 in existing && HoldsEditMarkers(whole.1))
  {
    hide SplitLines, IsSearch;
  }

  lemma DictIgnores(p: Progress, q: Progress, writes: seq<(string, string)>)
    requires IsDictOf(p, writes) && q.order == p.order && q.resolved == p.resolved
    ensures IsDictOf(q, writes)
  {
  }

  lemma {:induction false} NotesAre(p: Progress, whole: seq<(string, string)>, existing: map<string, string>,
                                    notes: seq<Note>)
    requires forall path :: path in p.wholeNew <==> path !in existing && GivenWhole(whole, path)
    ensures var q := TakeNotes(p, notes);
      && q.order == p.order && q.resolved == p.resolved
      && q.failures == p.failures + NoteFailures(whole, existing, notes)
      && q.applied == p.applied + NoteRecords(whole, existing, notes)
    decreases |notes|
  {
    if notes == [] {
      assert p.failures + [] == p.failures && p.applied + [] == p.applied;
    } else {
      NotesUnfold(whole, existing, notes);
      hide GivenWhole, NoteFailures, NoteRecords;
      var down := StandsDown(whole, existing, notes[0]);
      var failure := if down then [] else [NoteFailure(notes[0])];
      var record := if down then [EditApplied(notes[0].path.value, 0, Superseded, 0.0, None)] else [];
      NoteTaken(p, whole, existing, notes[0], failure, record);
      NotesAre(TakeNote(p, notes[0]), whole, existing, notes[1..]);
      Regroup(p.failures, failure, NoteFailures(whole, existing, notes[1..]));
      Regroup(p.applied, record, NoteRecords(whole, existing, notes[1..]));
    }
  }

  lemma NoteTaken(p: Progress, whole: seq<(string, string)>, existing: map<string, string>, note: Note,
                  failure: seq<EditFailure>, record: seq<EditApplied>)
    requires forall path :: path in p.wholeNew <==> path !in existing && GivenWhole(whole, path)
    requires failure == if StandsDown(whole, existing, note) then [] else [NoteFailure(note)]
    requires record == if StandsDown(whole, existing, note)
                       then [EditApplied(note.path.value, 0, Superseded, 0.0, None)] else []
    ensures var q := TakeNote(p, note);
      && q == p.(errors := q.errors, failures := p.failures + failure, applied := p.applied + record)
  {
    hide GivenWhole;
    assert p.applied + [] == p.applied && p.failures + [] == p.failures;
  }

  lemma NotesUnfold(whole: seq<(string, string)>, existing: map<string, string>, notes: seq<Note>)
    requires notes != []
    ensures NoteFailures(whole, existing, notes)
         == (if StandsDown(whole, existing, notes[0]) then [] else [NoteFailure(notes[0])])
            + NoteFailures(whole, existing, notes[1..])
    ensures NoteRecords(whole, existing, notes)
         == (if StandsDown(whole, existing, notes[0])
             then [EditApplied(notes[0].path.value, 0, Superseded, 0.0, None)] else [])
            + NoteRecords(whole, existing, notes[1..])
  {
  }

  lemma LabelIff(path: string)
    ensures LooksLikeALabel(path) <==> SpaceInside(path)
  {
    hide Strip, IsSpace;
    var a, b := StripIs(path);
    var p := Strip(path);
    forall x | 0 <= x < a ensures IsSpace(path[x]) {
      assert path[..a][x] == path[x];
    }
    forall x | b <= x < |path| ensures IsSpace(path[x]) {
      assert path[b..][x - b] == path[x];
    }
    if i :| 0 <= i < |p| && IsSpace(p[i]) {
      assert !IsSpace(path[a]) && IsSpace(path[a + i]) && !IsSpace(path[b - 1]);
    }
    if x, y, z :| 0 <= x < y < z < |path| && !IsSpace(path[x]) && IsSpace(path[y]) && !IsSpace(path[z]) {
      assert p[y - a] == path[y];
    }
  }

  lemma FateIs(env: Env, p: Progress, fe: Edits, existing: map<string, string>)
    ensures TakeFile(env, p, fe, existing)
         == match FateOf(env, existing, fe)
            case Written(content, records) => p.Put(fe.path, content).Record(records)
            case Refused(failure) => p.Fail(failure)
  {
    hide ApplyFrom, LooksLikeALabel, SpaceInside, Records;
    LabelIff(fe.path);
  }

  lemma {:induction false} FilesAre(env: Env, p: Progress, writes: seq<(string, string)>, files: seq<Edits>,
                                    existing: map<string, string>)
    requires IsDictOf(p, writes)
    ensures var q := TakeFiles(env, p, files, existing);
      && IsDictOf(q, writes + FileWrites(env, existing, files))
      && q.failures == p.failures + FileFailures(env, existing, files)
      && q.applied == p.applied + FileRecords(env, existing, files)
    decreases |files|
  {
    if files == [] {
      assert writes + [] == writes;
    } else {
      FilesUnfold(env, existing, files);
      hide FateOf, TakeFile, IsDictOf, FileWrites, FileFailures, FileRecords;
      var fe, tail := files[0], files[1..];
      var next := TakeFile(env, p, fe, existing);
      TakeOneFile(env, p, writes, fe, existing);
      FilesAre(env, next, writes + WritesOf(env, existing, fe), tail, existing);
      Regroup(writes, WritesOf(env, existing, fe), FileWrites(env, existing, tail));
      Regroup(p.failures, FailuresOf(env, existing, fe), FileFailures(env, existing, tail));
      Regroup(p.applied, RecordsOf(env, existing, fe), FileRecords(env, existing, tail));
    }
  }

  lemma FilesUnfold(env: Env, existing: map<string, string>, files: seq<Edits>)
    requires files != []
    ensures FileWrites(env, existing, files)
         == WritesOf(env, existing, files[0]) + FileWrites(env, existing, files[1..])
    ensures FileFailures(env, existing, files)
         == FailuresOf(env, existing, files[0]) + FileFailures(env, existing, files[1..])
    ensures FileRecords(env, existing, files)
         == RecordsOf(env, existing, files[0]) + FileRecords(env, existing, files[1..])
  {
  }

  lemma TakeOneFile(env: Env, p: Progress, writes: seq<(string, string)>, fe: Edits, existing: map<string, string>)
    requires IsDictOf(p, writes)
    ensures var q := TakeFile(env, p, fe, existing);
      && IsDictOf(q, writes + WritesOf(env, existing, fe))
      && q.failures == p.failures + FailuresOf(env, existing, fe)
      && q.applied == p.applied + RecordsOf(env, existing, fe)
  {
    FateIs(env, p, fe, existing);
    hide FateOf, TakeFile, IsDictOf;
    var next := TakeFile(env, p, fe, existing);
    match FateOf(env, existing, fe) {
      case Written(content, _) =>
        PutAppends(p, writes, fe.path, content);
        DictIgnores(p.Put(fe.path, content), next, writes + [(fe.path, content)]);
      case Refused(_) =>
        assert writes + [] == writes;
        DictIgnores(p, next, writes);
    }
  }

  // ----- the result

  /** All the writes of an answer, in order. */
  function AllWrites(env: Env, whole: seq<(string, string)>, parsed: Parsed, existing: map<string, string>)
    : seq<(string, string)>
  {
    WholeWrites(whole, existing) + FileWrites(env, existing, parsed.files)
  }

  /**
   The result of a resolve: the accepted whole files and the files whose edits landed, each path once, where it was
   first written and with what was written to it last; a failure for each broken block that does not stand down and
   each file that is refused, with its error; and a record of everything else.
   */
  lemma ResultIs(env: Env, whole: seq<(string, string)>, parsed: Parsed, existing: map<string, string>)
    ensures var r, writes := ResultOf(Resolved(env, whole, parsed, existing)), AllWrites(env, whole, parsed, existing);
      && |r.files| == |FirstOrder(writes)|
      && (forall i :: 0 <= i < |r.files| ==>
            r.files[i].0 == FirstOrder(writes)[i] && Some(r.files[i].1) == LastTo(writes, r.files[i].0))
      && r.failures == NoteFailures(whole, existing, parsed.notes) + FileFailures(env, existing, parsed.files)
      && |r.errors| == |r.failures|
      && (forall i :: 0 <= i < |r.errors| ==> r.errors[i] == r.failures[i].detail)
      && r.applied == NoteRecords(whole, existing, parsed.notes) + FileRecords(env, existing, parsed.files)
  {
    hide TakeWholes, TakeNotes, TakeFiles, WholeWrites, NoteFailures, FileFailures, NoteRecords, FileRecords;
    hide FileWrites, FirstOrder, LastTo;
    ResultIsConsistent(env, whole, parsed, existing);
    ProgressIs(env, whole, parsed, existing);
    var q, writes := Resolved(env, whole, parsed, existing), AllWrites(env, whole, parsed, existing);
    forall i | 0 <= i < |q.order| ensures q.order[i] in q.resolved {
      OrderHolds(writes, q.order[i]);
    }
  }

  /** The resolver's variables at the end. */
  lemma ProgressIs(env: Env, whole: seq<(string, string)>, parsed: Parsed, existing: map<string, string>)
    ensures var q := Resolved(env, whole, parsed, existing);
      && IsDictOf(q, AllWrites(env, whole, parsed, existing))
      && q.failures == NoteFailures(whole, existing, parsed.notes) + FileFailures(env, existing, parsed.files)
      && q.applied == NoteRecords(whole, existing, parsed.notes) + FileRecords(env, existing, parsed.files)
  {
    assert IsDictOf(NOTHING_YET, []);
    hide TakeWholes, TakeNotes, TakeFiles, WholeWrites, NoteFailures, FileFailures, NoteRecords, FileRecords;
    hide FileWrites, IsDictOf, GivenWhole;
    var p1 := TakeWholes(NOTHING_YET, whole, existing);
    var given := WholeWrites(whole, existing);
    WholesAre(NOTHING_YET, [], whole, existing);
    assert [] + given == given;
    NotesAre(p1, whole, existing, parsed.notes);
    var p2 := TakeNotes(p1, parsed.notes);
    DictIgnores(p1, p2, given);
    FilesAre(env, p2, given, parsed.files, existing);
    assert [] + NoteFailures(whole, existing, parsed.notes) == NoteFailures(whole, existing, parsed.notes);
    assert [] + NoteRecords(whole, existing, parsed.notes) == NoteRecords(whole, existing, parsed.notes);
  }

  /** A whole file that is accepted and not written over is in the result. */
  lemma WholeIsWritten(env: Env, whole: seq<(string, string)>, parsed: Parsed, existing: map<string, string>, k: nat)
    requires k < |whole| && Accepted(whole[k], existing)
    requires forall j :: k < j < |whole| && Accepted(whole[j], existing) ==> whole[j].0 != whole[k].0
    requires forall j :: 0 <= j < |parsed.files| && FateOf(env, existing, parsed.files[j]).Written? ==>
               parsed.files[j].path != whole[k].0
    ensures whole[k] in ResultOf(Resolved(env, whole, parsed, existing)).files
  {
    ResultIs(env, whole, parsed, existing);
    var writes := AllWrites(env, whole, parsed, existing);
    hide FateOf, Resolved, Accepted;
    var m := WholeAt(whole, existing, k);
    forall j | m < j < |writes| ensures writes[j].0 != writes[m].0 {
      if j >= |WholeWrites(whole, existing)| {
        var n := WriteFrom(env, existing, parsed.files, j - |WholeWrites(whole, existing)|);
      }
    }
    InResult(env, whole, parsed, existing, m);
  }

  /** A file whose edits land, or that is created from an empty SEARCH, is in the result: no path is parsed twice. */
  lemma EditsAreWritten(env: Env, whole: seq<(string, string)>, parsed: Parsed, existing: map<string, string>, k: nat)
    requires k < |parsed.files| && FateOf(env, existing, parsed.files[k]).Written?
    requires forall j :: k < j < |parsed.files| ==> parsed.files[j].path != parsed.files[k].path
    ensures (parsed.files[k].path, FateOf(env, existing, parsed.files[k]).content)
              in ResultOf(Resolved(env, whole, parsed, existing)).files
  {
    hide FateOf, Resolved;
    var n := FileAt(env, existing, parsed.files, k);
    var m := |WholeWrites(whole, existing)| + n;
    var writes := AllWrites(env, whole, parsed, existing);
    forall j | m < j < |writes| ensures writes[j].0 != writes[m].0 {
      assert writes[j] == FileWrites(env, existing, parsed.files)[j - |WholeWrites(whole, existing)|];
    }
    InResult(env, whole, parsed, existing, m);
  }

  lemma InResult(env: Env, whole: seq<(string, string)>, parsed: Parsed, existing: map<string, string>, m: nat)
    requires var writes := AllWrites(env, whole, parsed, existing);
      m < |writes| && forall j :: m < j < |writes| ==> writes[j].0 != writes[m].0
    ensures AllWrites(env, whole, parsed, existing)[m] in ResultOf(Resolved(env, whole, parsed, existing)).files
  {
    var r, writes := ResultOf(Resolved(env, whole, parsed, existing)), AllWrites(env, whole, parsed, existing);
    ResultIs(env, whole, parsed, existing);
    hide Resolved, AllWrites, ResultOf;
    LastToIs(writes, m);
    OrderHolds(writes, writes[m].0);
    var i :| 0 <= i < |FirstOrder(writes)| && FirstOrder(writes)[i] == writes[m].0;
    assert r.files[i] == writes[m];
  }

  /** Where an accepted whole file comes among the writes; no later write is of a path it is the last of. */
  lemma {:induction false} WholeAt(whole: seq<(string, string)>, existing: map<string, string>, k: nat)
    returns (m: nat)
    requires k < |whole| && Accepted(whole[k], existing)
    requires forall j :: k < j < |whole| && Accepted(whole[j], existing) ==> whole[j].0 != whole[k].0
    ensures m < |WholeWrites(whole, existing)| && WholeWrites(whole, existing)[m] == whole[k]
    ensures forall j :: m < j < |WholeWrites(whole, existing)| ==> WholeWrites(whole, existing)[j].0 != whole[k].0
  {
    hide Accepted;
    if k == 0 {
      m := 0;
      forall j | 0 < j < |WholeWrites(whole, existing)| ensures WholeWrites(whole, existing)[j].0 != whole[0].0 {
        var n := WholeFrom(whole[1..], existing, j - 1);
        assert whole[n + 1] == whole[1..][n];
      }
    } else {
      assert whole[1..][k - 1] == whole[k];
      assert forall j :: 0 <= j < |whole[1..]| ==> whole[1..][j] == whole[j + 1];
      m := WholeAt(whole[1..], existing, k - 1);
      m := m + if Accepted(whole[0], existing) then 1 else 0;
    }
  }

  lemma {:induction false} WholeFrom(whole: seq<(string, string)>, existing: map<string, string>, m: nat)
    returns (k: nat)
    requires m < |WholeWrites(whole, existing)|
    ensures k < |whole| && Accepted(whole[k], existing) && WholeWrites(whole, existing)[m] == whole[k]
  {
    hide Accepted;
    if Accepted(whole[0], existing) && m == 0 {
      k := 0;
    } else {
      k := WholeFrom(whole[1..], existing, if Accepted(whole[0], existing) then m - 1 else m);
      k := k + 1;
    }
  }

  lemma {:induction false} WriteFrom(env: Env, existing: map<string, string>, files: seq<Edits>, m: nat)
    returns (k: nat)
    requires m < |FileWrites(env, existing, files)|
    ensures k < |files| && FateOf(env, existing, files[k]).Written?
    ensures FileWrites(env, existing, files)[m] == (files[k].path, FateOf(env, existing, files[k]).content)
  {
    hide FateOf;
    var first := FateOf(env, existing, files[0]).Written?;
    if first && m == 0 {
      k := 0;
    } else {
      k := WriteFrom(env, existing, files[1..], if first then m - 1 else m);
      k := k + 1;
    }
  }

  lemma {:induction false} FileAt(env: Env, existing: map<string, string>, files: seq<Edits>, k: nat)
    returns (m: nat)
    requires k < |files| && FateOf(env, existing, files[k]).Written?
    requires forall j :: k < j < |files| ==> files[j].path != files[k].path
    ensures m < |FileWrites(env, existing, files)|
    ensures FileWrites(env, existing, files)[m] == (files[k].path, FateOf(env, existing, files[k]).content)
    ensures forall j :: m < j < |FileWrites(env, existing, files)| ==>
              FileWrites(env, existing, files)[j].0 != files[k].path
  {
    hide FateOf;
    if k == 0 {
      m := 0;
      forall j | 0 < j < |FileWrites(env, existing, files)|
        ensures FileWrites(env, existing, files)[j].0 != files[0].path
      {
        var n := WriteFrom(env, existing, files[1..], j - 1);
        assert files[n + 1] == files[1..][n];
      }
    } else {
      assert files[1..][k - 1] == files[k];
      assert forall j :: 0 <= j < |files[1..]| ==> files[1..][j] == files[j + 1];
      m := FileAt(env, existing, files[1..], k - 1);
      m := m + if FateOf(env, existing, files[0]).Written? then 1 else 0;
    }
  }
}
