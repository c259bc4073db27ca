/**
 What a role can rely on in a spec's context: where each path lands, what a status means, that the chunk size
 is invisible, and exactly when a reused context agrees with a fresh fetch.
 */
module SpecContextLaws {
  import opened Options
  import opened EditText
  import opened SpecContext

  // ----- every path lands once

  function FilePaths(files: seq<File>): seq<string> {
    seq(|files|, i requires 0 <= i < |files| => files[i].path)
  }

  function OmittedPaths(omitted: seq<Omission>): seq<string> {
    seq(|omitted|, i requires 0 <= i < |omitted| => omitted[i].path)
  }

  lemma FilePathsConcat(a: seq<File>, b: seq<File>)
    ensures FilePaths(a + b) == FilePaths(a) + FilePaths(b)
  {
  }

  lemma OmittedPathsConcat(a: seq<Omission>, b: seq<Omission>)
    ensures OmittedPaths(a + b) == OmittedPaths(a) + OmittedPaths(b)
  {
  }

  /** Of a list of paths, each is read or omitted, once for every time it is listed. */
  lemma {:induction false} ReadOrOmitted(paths: seq<string>, offLimits: seq<string>, files: seq<File>,
                                         problems: seq<string>)
    ensures multiset(FilePaths(Served(paths, files)))
            + multiset(OmittedPaths(Omissions(paths, offLimits, files, problems)))
         == multiset(paths)
  {
    if paths != [] {
      var rest := paths[1..];
      ReadOrOmitted(rest, offLimits, files, problems);
      assert paths == [paths[0]] + rest;
      if Lookup(files, paths[0]).Some? {
        var file := File(paths[0], Lookup(files, paths[0]).value);
        FilePathsConcat([file], Served(rest, files));
        assert Omissions(paths, offLimits, files, problems) == Omissions(rest, offLimits, files, problems);
        assert FilePaths([file]) == [paths[0]];
      } else {
        var o := Omission(paths[0], SectionOf(paths[0], offLimits), ReasonFor(paths[0], problems));
        OmittedPathsConcat([o], Omissions(rest, offLimits, files, problems));
        assert Served(paths, files) == Served(rest, files);
        assert OmittedPaths([o]) == [paths[0]];
      }
    }
  }

  lemma {:induction false} ServedConcat(a: seq<string>, b: seq<string>, files: seq<File>)
    ensures Served(a + b, files) == Served(a, files) + Served(b, files)
  {
    hide ServedOne;
    if a == [] {
      assert a + b == b;
    } else {
      ServedConcat(a[1..], b, files);
      assert (a + b)[1..] == a[1..] + b && (a + b)[0] == a[0];
    }
  }

  /** What is asked of the runner: the editable candidates, then the protected paths, each once. */
  lemma RequestedIsAll(candidates: seq<string>, offLimits: seq<string>)
    requires Distinct(candidates) && Distinct(offLimits)
    ensures Requested(candidates, offLimits) == Without(candidates, offLimits) + offLimits
    ensures Distinct(Requested(candidates, offLimits))
    ensures forall p :: p in Requested(candidates, offLimits) <==> p in candidates || p in offLimits
  {
    hide Dedup, Without;
    var wanted := Without(candidates, offLimits);
    assert Distinct(wanted + offLimits) by {
      forall i, j | 0 <= i < j < |wanted + offLimits| ensures (wanted + offLimits)[i] != (wanted + offLimits)[j] {
        if i < |wanted| <= j {
          assert wanted[i] in wanted && offLimits[j - |wanted|] in offLimits;
        }
      }
    }
    DedupOfDistinct(wanted + offLimits);
  }

  /** What a request asks for: its candidates and protected paths, each once. */
  lemma WantedIsAll(ask: Request)
    ensures Wanted(ask) == Without(Dedup(ask.candidates), Dedup(ask.protectedPaths)) + Dedup(ask.protectedPaths)
    ensures Distinct(Wanted(ask))
    ensures forall p :: p in Wanted(ask) <==> p in ask.candidates || p in ask.protectedPaths
  {
    hide Dedup;
    RequestedIsAll(Dedup(ask.candidates), Dedup(ask.protectedPaths));
  }

  /**
   Whatever a completed fetch answered, each path asked for is in exactly one of the editable section, the
   protected section and the omissions, and nothing else is in any of them.
   */
  lemma EveryPathLandsOnce(ask: Request, files: seq<File>, problems: seq<string>, refState: Option<string>,
                           fetches: nat)
    ensures var ctx := Built(ask, files, problems, refState, fetches);
      && multiset(FilePaths(ctx.editable)) + multiset(FilePaths(ctx.protected)) + multiset(OmittedPaths(ctx.omitted))
         == multiset(Wanted(ask))
      && Distinct(Wanted(ask))
      && forall p :: p in Wanted(ask) <==> p in ask.candidates || p in ask.protectedPaths
  {
    hide Dedup, Without, Served, Omissions;
    WantedIsAll(ask);
    var offLimits := Dedup(ask.protectedPaths);
    var wanted := Without(Dedup(ask.candidates), offLimits);
    ReadOrOmitted(wanted + offLimits, offLimits, files, problems);
    ServedConcat(wanted, offLimits, files);
    FilePathsConcat(Served(wanted, files), Served(offLimits, files));
  }

  // ----- where a path lands

  /** Where a context holds a path. */
  datatype Place = Shown(section: Section, content: string) | Left(section: Section, reason: string) | Nowhere

  function PlaceOf(ctx: Context, path: string): Place {
    match Lookup(ctx.editable, path)
    case Some(c) => Shown(EditableSection, c)
    case None =>
      match Lookup(ctx.protected, path)
      case Some(c) => Shown(ProtectedSection, c)
      case None =>
        match FirstOmission(ctx.omitted, path)
        case Some(o) => Left(o.section, o.reason)
        case None => Nowhere
  }

  lemma {:induction false} LookupConcat(a: seq<File>, b: seq<File>, path: string)
    ensures Lookup(a + b, path) == if Lookup(b, path).Some? then Lookup(b, path) else Lookup(a, path)
  {
    if b == [] {
      assert a + b == a;
    } else {
      LookupConcat(a, b[..|b| - 1], path);
      assert (a + b)[..|a + b| - 1] == a + b[..|b| - 1];
    }
  }

  lemma {:induction false} LookupServed(wanted: seq<string>, files: seq<File>, path: string)
    ensures Lookup(Served(wanted, files), path) == if path in wanted then Lookup(files, path) else None
  {
    if wanted != [] {
      var rest := wanted[1..];
      LookupServed(rest, files, path);
      assert wanted == [wanted[0]] + rest;
      match Lookup(files, wanted[0])
      case None =>
        assert Served(wanted, files) == Served(rest, files);
      case Some(c) =>
        LookupConcat([File(wanted[0], c)], Served(rest, files), path);
        assert [File(wanted[0], c)][..0] == [];
    }
  }

  lemma {:induction false} FirstOmissionOf(paths: seq<string>, offLimits: seq<string>, files: seq<File>,
                                           problems: seq<string>, path: string)
    ensures FirstOmission(Omissions(paths, offLimits, files, problems), path)
         == if path in paths && Lookup(files, path).None?
            then Some(Omission(path, SectionOf(path, offLimits), ReasonFor(path, problems))) else None
  {
    if paths != [] {
      FirstOmissionOf(paths[1..], offLimits, files, problems, path);
      assert paths == [paths[0]] + paths[1..];
      var rest := Omissions(paths[1..], offLimits, files, problems);
      if Lookup(files, paths[0]).Some? {
        assert Omissions(paths, offLimits, files, problems) == rest;
      } else {
        var o := Omission(paths[0], SectionOf(paths[0], offLimits), ReasonFor(paths[0], problems));
        assert Omissions(paths, offLimits, files, problems)[1..] == rest;
      }
    }
  }

  /** Protected wins over editable; a path that was read is shown, one that was not is omitted with its reason. */
  lemma BuiltPlace(ask: Request, files: seq<File>, problems: seq<string>, refState: Option<string>, fetches: nat,
                   path: string)
    ensures PlaceOf(Built(ask, files, problems, refState, fetches), path)
         == if path !in ask.candidates && path !in ask.protectedPaths then Nowhere
            else match Lookup(files, path)
                 case Some(c) => Shown(SectionOf(path, ask.protectedPaths), c)
                 case None => Left(SectionOf(path, ask.protectedPaths), ReasonFor(path, problems))
  {
    hide Lookup, Served, Omissions, FirstOmission, Dedup, ReasonFor, Wanted;
    var offLimits := Dedup(ask.protectedPaths);
    WantedIsAll(ask);
    LookupServed(Without(Dedup(ask.candidates), offLimits), files, path);
    LookupServed(offLimits, files, path);
    FirstOmissionOf(Wanted(ask), offLimits, files, problems, path);
  }

  /** A context's status of a path is what its place says. */
  lemma StatusIsPlace(ctx: Context, path: string)
    requires ctx.repo.Some?
    ensures ctx.Status(path) == match PlaceOf(ctx, path)
                                case Shown(_, _) => Found
                                case Left(_, reason) => OmissionStatus(reason)
                                case Nowhere => Unread
  {
  }

  /** A requested path that was not read is unread exactly when its reason does not read like an absence. */
  lemma UnreadIff(ask: Request, files: seq<File>, problems: seq<string>, refState: Option<string>, fetches: nat,
                  path: string)
    requires HasRepo(ask) && (path in ask.candidates || path in ask.protectedPaths) && Lookup(files, path).None?
    ensures var ctx := Built(ask, files, problems, refState, fetches);
      && (ctx.Status(path) == Unread <==> !SaysAbsent(ReasonFor(path, problems)))
      && (ctx.Status(path) == Absent <==> SaysAbsent(ReasonFor(path, problems)))
  {
    hide SaysAbsent, Lookup, ReasonFor;
    StatusIsPlace(Built(ask, files, problems, refState, fetches), path);
    BuiltPlace(ask, files, problems, refState, fetches, path);
  }

  /** A path is called absent only when some problem begins with it and says so. */
  lemma AbsentMeansSaid(ask: Request, files: seq<File>, problems: seq<string>, refState: Option<string>, fetches: nat,
                        path: string)
    requires HasRepo(ask) && Built(ask, files, problems, refState, fetches).Status(path) == Absent
    ensures Lookup(files, path).None?
    ensures exists k :: 0 <= k < |problems| && path + ":" <= problems[k] && SaysAbsent(Strip(problems[k][|path| + 1..]))
  {
    hide Lookup, SaysAbsent;
    StatusIsPlace(Built(ask, files, problems, refState, fetches), path);
    BuiltPlace(ask, files, problems, refState, fetches, path);
    SaidSomewhere(path, problems);
  }

  lemma {:induction false} SaidSomewhere(path: string, problems: seq<string>)
    requires SaysAbsent(ReasonFor(path, problems))
    ensures exists k :: 0 <= k < |problems| && path + ":" <= problems[k] && SaysAbsent(Strip(problems[k][|path| + 1..]))
  {
    hide SaysAbsent;
    if problems == [] {
      NotReturnedIsNotAbsent();
    } else if path + ":" <= problems[0] {
    } else {
      SaidSomewhere(path, problems[1..]);
      var rest := problems[1..];
      var k :| 0 <= k < |rest| && path + ":" <= rest[k] && SaysAbsent(Strip(rest[k][|path| + 1..]));
      assert problems[k + 1] == rest[k];
    }
  }

  lemma NotReturnedIsNotAbsent()
    ensures !SaysAbsent("not returned by the runner")
  {
    var text := "not returned by the runner";
    forall w: nat, k: nat | w < |ABSENT_WORDS| && k <= |text| ensures !MentionsAt(text, ABSENT_WORDS[w], k) {
      NotReturnedSaysNothing(w, k);
    }
  }

  lemma NotReturnedSaysNothing(w: nat, k: nat)
    requires w < |ABSENT_WORDS|
    ensures !MentionsAt("not returned by the runner", ABSENT_WORDS[w], k)
  {
    var text, words := "not returned by the runner", ABSENT_WORDS[w];
    if k + 9 <= |text| {
      if w == 0 {
        assert text[k] != words[0] || text[k + 1] != words[1];
      } else if w == 1 {
        assert text[k] != words[0] || text[k + 1] != words[1] || text[k + 4] != words[4];
      } else if w == 2 {
        assert text[k] != words[0] || text[k + 1] != words[1] || text[k + 2] != words[2];
      } else {
        assert text[k] != words[0] || text[k + 1] != words[1];
      }
    }
  }

  const READ_FAILED := "read failed: "

  /** No phrase that means absence straddles the prefix of a failed read. */
  lemma PrefixSaysNothing(message: string, w: nat, k: nat)
    requires w < |ABSENT_WORDS| && k < |READ_FAILED|
    ensures !MentionsAt(READ_FAILED + message, ABSENT_WORDS[w], k)
  {
    var text, words := READ_FAILED + message, ABSENT_WORDS[w];
    if k + |words| <= |text| {
      assert Lower(text[k]) != words[0] || (k + 1 < |READ_FAILED| && Lower(text[k + 1]) != words[1]);
    }
  }

  /**
   When the fetch fails on this side of the wire and no earlier context can be kept, a path's status is unread,
   as intended, if and only if the failure's own text does not read like an absence.
   */
  lemma FailedReadIsUnreadIff(stored: Option<Context>, ask: Request, fetch: Fetch, settings: Settings, loads: bool,
                              saves: bool, path: string)
    requires HasRepo(ask) && fetch.Failed? && !(loads && Reusable(stored, ask))
    requires path in ask.candidates || path in ask.protectedPaths
    ensures var (result, after) := Assembled(stored, ask, fetch, settings, loads, saves);
      && result.Given? && !result.fetched && after == stored
      && (result.ctx.Status(path) == Unread <==> !SaysAbsent(fetch.message))
      && (result.ctx.Status(path) == Absent <==> SaysAbsent(fetch.message))
  {
    hide SaysAbsent, Dedup, Wanted;
    WantedIsAll(ask);
    assert path in Wanted(ask);
    FirstFailure(Wanted(ask), Dedup(ask.protectedPaths), fetch.message, path);
    FailureText(fetch.message);
  }

  lemma FailureText(message: string)
    ensures SaysAbsent(READ_FAILED + message) <==> SaysAbsent(message)
  {
    var text := READ_FAILED + message;
    forall w: nat | w < |ABSENT_WORDS| ensures Mentions(text, ABSENT_WORDS[w]) <==> Mentions(message, ABSENT_WORDS[w]) {
      FailureMentions(message, w);
    }
  }

  lemma FailureMentions(message: string, w: nat)
    requires w < |ABSENT_WORDS|
    ensures Mentions(READ_FAILED + message, ABSENT_WORDS[w]) <==> Mentions(message, ABSENT_WORDS[w])
  {
    var text, words, n := READ_FAILED + message, ABSENT_WORDS[w], |READ_FAILED|;
    forall k: nat | k <= |message| ensures MentionsAt(text, words, n + k) <==> MentionsAt(message, words, k) {
      assert forall j :: n <= j < |text| ==> text[j] == message[j - n];
    }
    if Mentions(text, words) {
      var k: nat :| k <= |text| && MentionsAt(text, words, k);
      if k < n {
        PrefixSaysNothing(message, w, k);
      } else {
        assert MentionsAt(message, words, k - n);
      }
    }
    if Mentions(message, words) {
      var k: nat :| k <= |message| && MentionsAt(message, words, k);
      assert MentionsAt(text, words, n + k);
    }
  }

  lemma {:induction false} FirstFailure(paths: seq<string>, offLimits: seq<string>, message: string, path: string)
    requires path in paths
    ensures FirstOmission(FailedReads(paths, offLimits, message), path)
         == Some(Omission(path, SectionOf(path, offLimits), READ_FAILED + message))
  {
    assert paths == [paths[0]] + paths[1..];
    assert FailedReads(paths, offLimits, message)[1..] == FailedReads(paths[1..], offLimits, message);
    if paths[0] != path {
      FirstFailure(paths[1..], offLimits, message, path);
    }
  }

  const NO_SUCH_FILE := "[Errno 2] No such file or directory"

  lemma NoSuchFileSaysAbsent(before: string, after: string)
    ensures SaysAbsent(before + NO_SUCH_FILE + after)
  {
    var text, words, k := before + NO_SUCH_FILE + after, "no such file", |before| + 10;
    assert text[|before|..|before| + |NO_SUCH_FILE|] == NO_SUCH_FILE;
    forall i | 0 <= i < |words| ensures Lower(text[k + i]) == words[i] {
      assert text[k + i] == NO_SUCH_FILE[10 + i];
    }
    assert MentionsAt(text, words, k);
    assert Mentions(text, words) && ABSENT_WORDS[2] == words;
  }

  /** So a missing-file error on this side makes every path of the request look like a creation. */
  lemma FailedReadCanLookAbsent(ask: Request, settings: Settings, saves: bool, path: string)
    requires HasRepo(ask) && (path in ask.candidates || path in ask.protectedPaths)
    ensures var result := Assembled(None, ask, Failed(NO_SUCH_FILE), settings, true, saves).0;
      result.Given? && result.ctx.Status(path) == Absent
  {
    hide SaysAbsent, Assembled;
    FailedReadIsUnreadIff(None, ask, Failed(NO_SUCH_FILE), settings, true, saves, path);
    NoSuchFileSaysAbsent("", "");
    assert "" + NO_SUCH_FILE + "" == NO_SUCH_FILE;
  }

  // ----- the chunk size is invisible

  /** What the repository holds at a ref: a file, or a reason it cannot be read. */
  datatype Reading = Text(content: string) | NoText(reason: string)

  type Tree = string -> Reading

  function ReadOne(tree: Tree, path: string): seq<File> {
    match tree(path)
    case Text(c) => [File(path, c)]
    case NoText(_) => []
  }

  function NoteOne(tree: Tree, path: string): seq<string> {
    match tree(path)
    case Text(_) => []
    case NoText(reason) => [path + ": " + reason]
  }

  function ReadsOf(tree: Tree, paths: seq<string>): seq<File> {
    if paths == [] then [] else ReadOne(tree, paths[0]) + ReadsOf(tree, paths[1..])
  }

  function NotesOf(tree: Tree, paths: seq<string>): seq<string> {
    if paths == [] then [] else NoteOne(tree, paths[0]) + NotesOf(tree, paths[1..])
  }

  predicate ReadsTruly(answer: Answer, tree: Tree, chunk: seq<string>) {
    answer.Answer? && answer.files == ReadsOf(tree, chunk) && answer.problems == NotesOf(tree, chunk)
  }

  /**
   A runner that reads each path of a chunk on its own, up to the number of paths it takes at once, and names
   the commit it serves whenever it is asked.
   */
  ghost predicate Truthful(runner: Runner, tree: Tree, commit: Option<string>, limit: nat) {
    forall i: nat, chunk: seq<string>, asked: bool | |chunk| <= limit ::
      ReadsTruly(runner(i, chunk, asked), tree, chunk) && (asked ==> runner(i, chunk, asked).refState == commit)
  }

  /** A runner each of whose answers is truthful or is no answer at all. */
  ghost predicate Intermittent(runner: Runner, tree: Tree, limit: nat) {
    forall i: nat, chunk: seq<string>, asked: bool | |chunk| <= limit ::
      IsOrNone(runner(i, chunk, asked), tree, chunk)
  }

  predicate IsOrNone(answer: Answer, tree: Tree, chunk: seq<string>) {
    ReadsTruly(answer, tree, chunk) || answer.Raises? || (answer.files == [] && MeansOutage(answer.problems, chunk))
  }

  lemma AskedIsOrNone(runner: Runner, tree: Tree, limit: nat, i: nat, chunk: seq<string>, known: Option<string>)
    requires Intermittent(runner, tree, limit) && |chunk| <= limit
    ensures IsOrNone(AskChunk(runner, i, chunk, known), tree, chunk)
  {
    hide MeansOutage, ReadsOf, NotesOf;
    assert IsOrNone(runner(i, chunk, known.None?), tree, chunk) && IsOrNone(runner(i, chunk, false), tree, chunk);
  }

  lemma {:induction false} ReadsConcat(tree: Tree, a: seq<string>, b: seq<string>)
    ensures ReadsOf(tree, a + b) == ReadsOf(tree, a) + ReadsOf(tree, b)
    ensures NotesOf(tree, a + b) == NotesOf(tree, a) + NotesOf(tree, b)
  {
    hide ReadOne, NoteOne;
    if a == [] {
      assert a + b == b;
    } else {
      ReadsConcat(tree, a[1..], b);
      assert (a + b)[1..] == a[1..] + b && (a + b)[0] == a[0];
    }
  }

  lemma {:induction false} NotesNameTheirPath(tree: Tree, paths: seq<string>, k: nat)
    requires k < |NotesOf(tree, paths)|
    ensures exists p :: p in paths && tree(p).NoText? && NotesOf(tree, paths)[k] == p + ": " + tree(p).reason
  {
    var rest := NotesOf(tree, paths[1..]);
    assert paths == [paths[0]] + paths[1..];
    if tree(paths[0]).Text? {
      assert NotesOf(tree, paths) == rest;
      NotesNameTheirPath(tree, paths[1..], k);
    } else if k > 0 {
      assert NotesOf(tree, paths)[k] == rest[k - 1];
      NotesNameTheirPath(tree, paths[1..], k - 1);
    }
  }

  /** A truthful answer is never mistaken for an outage. */
  lemma TruthIsNoOutage(tree: Tree, chunk: seq<string>)
    ensures !MeansOutage(NotesOf(tree, chunk), chunk)
  {
    if |NotesOf(tree, chunk)| == 1 {
      NotesNameTheirPath(tree, chunk, 0);
      var p :| p in chunk && tree(p).NoText? && NotesOf(tree, chunk)[0] == p + ": " + tree(p).reason;
      assert p + ": " + tree(p).reason == (p + ":") + (" " + tree(p).reason);
    }
  }

  /** A fetch that completes read the whole list, whatever the chunk size. */
  lemma {:induction false} CompletedFetchIsWhole(runner: Runner, tree: Tree, paths: seq<string>, i: nat, size: nat,
                                                 known: Option<string>, limit: nat)
    requires 1 <= size <= limit && Intermittent(runner, tree, limit)
    ensures var fetch := FetchFrom(runner, paths, i, size, known);
      fetch.Fetched? ==> fetch.files == ReadsOf(tree, paths) && fetch.problems == NotesOf(tree, paths)
    decreases |paths|
  {
    hide MeansOutage, ReadOne, NoteOne, AskChunk;
    if paths != [] {
      var n := Min(size, |paths|);
      var answer := AskChunk(runner, i, paths[..n], known);
      AskedIsOrNone(runner, tree, limit, i, paths[..n], known);
      if answer.Answer? {
        CompletedFetchIsWhole(runner, tree, paths[n..], i + 1, size, answer.refState, limit);
        ReadsConcat(tree, paths[..n], paths[n..]);
        assert paths[..n] + paths[n..] == paths;
      }
    }
  }

  /** With a truthful runner every chunk size completes, and all give the same answer and the same commit. */
  lemma {:induction false} ChunkSizeIsInvisible(runner: Runner, tree: Tree, commit: Option<string>, paths: seq<string>,
                                                i: nat, size: nat, known: Option<string>, limit: nat)
    requires 1 <= size <= limit && Truthful(runner, tree, commit, limit)
    ensures FetchFrom(runner, paths, i, size, known)
         == Fetched(ReadsOf(tree, paths), NotesOf(tree, paths), if known.Some? || paths == [] then known else commit)
    decreases |paths|
  {
    hide MeansOutage, ReadOne, NoteOne;
    if paths != [] {
      var n := Min(size, |paths|);
      assert ReadsTruly(runner(i, paths[..n], known.None?), tree, paths[..n]);
      TruthIsNoOutage(tree, paths[..n]);
      ChunkSizeIsInvisible(runner, tree, commit, paths[n..], i + 1, size, if known.Some? then known else commit, limit);
      ReadsConcat(tree, paths[..n], paths[n..]);
      assert paths[..n] + paths[n..] == paths;
    }
  }

  // ----- whose problem a path's reason is

  /** A problem that begins with `q` may begin with `p` and a colon as well. */
  predicate Clash(q: string, p: string) {
    p + ":" <= q || q + ": " <= p
  }

  /** No path listed before `p` clashes with it. */
  predicate ClearBefore(paths: seq<string>, p: string) {
    paths == [] || paths[0] == p || (!Clash(paths[0], p) && ClearBefore(paths[1..], p))
  }

  /** The problem of one path is not taken for another's. */
  lemma NoteIsOwn(p: string, q: string, reason: string)
    requires p != q && !Clash(q, p)
    ensures !(p + ":" <= q + ": " + reason)
  {
    var note := q + ": " + reason;
    if |p| < |q| {
      assert note[..|p| + 1] == q[..|p| + 1];
    } else if |p| == |q| {
      assert note[..|p|] == q;
    } else if |p| == |q| + 1 {
      assert note[|q| + 1] == ' ' && (p + ":")[|q| + 1] == ':';
    } else {
      assert p[..|q| + 2] != q + ": ";
      var i :| 0 <= i < |q| + 2 && p[i] != (q + ": ")[i];
      assert note[i] == (q + ": ")[i] && note[i] != (p + ":")[i];
    }
  }

  /** A problem in front of others gives a path its reason when it is the path's own, and is passed over else. */
  lemma NoteFirst(tree: Tree, q: string, notes: seq<string>, path: string)
    requires q == path || !Clash(q, path)
    ensures ReasonFor(path, NoteOne(tree, q) + notes)
         == if q == path && tree(q).NoText? then Strip(" " + tree(q).reason) else ReasonFor(path, notes)
  {
    hide Strip;
    if tree(q).Text? {
      assert NoteOne(tree, q) + notes == notes;
    } else {
      var note := q + ": " + tree(q).reason;
      assert (NoteOne(tree, q) + notes)[0] == note && (NoteOne(tree, q) + notes)[1..] == notes;
      if q == path {
        assert note == (path + ":") + (" " + tree(q).reason);
        assert note[|path| + 1..] == " " + tree(q).reason;
      } else {
        NoteIsOwn(path, q, tree(q).reason);
      }
    }
  }

  /** With no clash before it, an unread path's reason is the one the runner gave for it. */
  lemma {:induction false} ReasonIsOwn(tree: Tree, paths: seq<string>, path: string)
    requires path in paths && tree(path).NoText? && ClearBefore(paths, path)
    ensures ReasonFor(path, NotesOf(tree, paths)) == Strip(" " + tree(path).reason)
  {
    hide Strip, NoteOne, Clash;
    assert paths == [paths[0]] + paths[1..];
    NoteFirst(tree, paths[0], NotesOf(tree, paths[1..]), path);
    if paths[0] != path {
      ReasonIsOwn(tree, paths[1..], path);
    }
  }

  /** A tree in which a path's reason is another's: only it and one that clashes before it cannot be read. */
  lemma ClashMisleads(paths: seq<string>, path: string) returns (tree: Tree)
    requires path in paths && !ClearBefore(paths, path)
    ensures tree(path).NoText? && ReasonFor(path, NotesOf(tree, paths)) != Strip(" " + tree(path).reason)
  {
    hide Strip, Clash;
    var q := FirstClash(paths, path);
    var other := MisleadingReason(q, path);
    tree := (p: string) => if p == path then NoText("") else if p == q then NoText(other) else Text("");
    OnlyNote(tree, paths, q, path);
    var note := q + ": " + other;
    EndsInX(note[|path| + 1..]);
    BlankReason();
  }

  function FirstClash(paths: seq<string>, path: string): (q: string)
    requires !ClearBefore(paths, path)
    ensures Clash(q, path) && q != path
  {
    if Clash(paths[0], path) then paths[0] else FirstClash(paths[1..], path)
  }

  /** A reason with which `q`'s problem begins with the path and a colon. */
  function MisleadingReason(q: string, path: string): (reason: string)
    requires Clash(q, path)
    ensures var note := q + ": " + reason; path + ":" <= note && |note| > |path| + 1 && note[|note| - 1] == 'x'
  {
    if path + ":" <= q then
      assert q + ": " + "x" == (path + ":") + (q[|path| + 1..] + ": x");
      "x"
    else
      var rest := path[|q| + 2..];
      assert q + ": " + (rest + ":x") == (path + ":") + "x";
      rest + ":x"
  }

  lemma {:induction false} OnlyNote(tree: Tree, paths: seq<string>, q: string, path: string)
    requires path in paths && !ClearBefore(paths, path) && q == FirstClash(paths, path)
    requires forall p :: tree(p).NoText? <==> p == path || p == q
    ensures NotesOf(tree, paths) != [] && NotesOf(tree, paths)[0] == q + ": " + tree(q).reason
  {
    hide Clash;
    assert paths == [paths[0]] + paths[1..];
    if !Clash(paths[0], path) {
      OnlyNote(tree, paths[1..], q, path);
      assert NotesOf(tree, paths) == NotesOf(tree, paths[1..]);
    }
  }

  lemma EndsInX(s: string)
    requires s != "" && s[|s| - 1] == 'x'
    ensures Strip(s) != ""
  {
    assert RStrip(s) == s;
    KeepsLast(s);
  }

  lemma {:induction false} KeepsLast(s: string)
    requires s != "" && !IsSpace(s[|s| - 1])
    ensures LStrip(s) != ""
  {
    if IsSpace(s[0]) {
      KeepsLast(s[1..]);
    }
  }

  lemma BlankReason()
    ensures Strip(" " + "") == ""
  {
    assert " " + "" == " " && " "[..0] == "";
    assert RStrip(" ") == RStrip("") == "";
  }

  /** A path's reason is its own in every tree if and only if no path listed before it clashes with it. */
  lemma ReasonIsOwnIff(paths: seq<string>, path: string)
    requires path in paths
    ensures (forall tree: Tree :: tree(path).NoText? ==>
              ReasonFor(path, NotesOf(tree, paths)) == Strip(" " + tree(path).reason))
            <==> ClearBefore(paths, path)
  {
    hide Strip, NotesOf, ReasonFor;
    if ClearBefore(paths, path) {
      forall tree: Tree | tree(path).NoText?
        ensures ReasonFor(path, NotesOf(tree, paths)) == Strip(" " + tree(path).reason)
      {
        ReasonIsOwn(tree, paths, path);
      }
    } else {
      var tree := ClashMisleads(paths, path);
    }
  }

  /** No other path of the list clashes with `p`, wherever it stands. */
  predicate Clear(paths: seq<string>, p: string) {
    forall q <- paths :: q != p ==> !Clash(q, p)
  }

  lemma {:induction false} ClearIsClearBefore(paths: seq<string>, p: string)
    requires Clear(paths, p)
    ensures ClearBefore(paths, p)
  {
    hide Clash;
    if paths != [] && paths[0] != p {
      assert paths[0] in paths && forall q <- paths[1..] :: q in paths;
      ClearIsClearBefore(paths[1..], p);
    }
  }

  // ----- reuse agrees with a fresh fetch

  /** Where a fetch of these paths puts one of them: a matter of the tree, the section and the problems. */
  function PlaceIn(tree: Tree, paths: seq<string>, offLimits: seq<string>, path: string): Place {
    match tree(path)
    case Text(c) => Shown(SectionOf(path, offLimits), c)
    case NoText(_) => Left(SectionOf(path, offLimits), ReasonFor(path, NotesOf(tree, paths)))
  }

  lemma {:induction false} LookupRead(tree: Tree, paths: seq<string>, path: string)
    ensures Lookup(ReadsOf(tree, paths), path)
         == if path in paths && tree(path).Text? then Some(tree(path).content) else None
  {
    if paths != [] {
      var rest := paths[1..];
      LookupRead(tree, rest, path);
      assert paths == [paths[0]] + rest;
      match tree(paths[0])
      case NoText(_) =>
        assert ReadsOf(tree, paths) == ReadsOf(tree, rest);
      case Text(c) =>
        LookupConcat([File(paths[0], c)], ReadsOf(tree, rest), path);
        assert [File(paths[0], c)][..0] == [];
    }
  }

  /** A completed truthful fetch puts every requested path where the tree says. */
  lemma BuiltFromTree(ask: Request, tree: Tree, refState: Option<string>, fetches: nat, path: string)
    requires path in ask.candidates || path in ask.protectedPaths
    ensures var paths := Wanted(ask);
      PlaceOf(Built(ask, ReadsOf(tree, paths), NotesOf(tree, paths), refState, fetches), path)
      == PlaceIn(tree, paths, ask.protectedPaths, path)
  {
    hide Built, PlaceOf, ReadsOf, NotesOf, Lookup, Wanted, ReasonFor;
    var paths := Wanted(ask);
    WantedIsAll(ask);
    BuiltPlace(ask, ReadsOf(tree, paths), NotesOf(tree, paths), refState, fetches, path);
    LookupRead(tree, paths, path);
  }

  /** What an unread file that the repository does hold is reported with when git cannot be run. */
  const GIT_UNAVAILABLE := "git unavailable: " + NO_SUCH_FILE + ": 'git'"

  /**
   The reader's own problem for a git that cannot be run reads like an absence: every path of the request with
   no clash before it looks like a creation, in whatever chunks it was asked for.
   */
  lemma GitUnavailableLooksAbsent(ask: Request, runner: Runner, commit: Option<string>, settings: Settings,
                                  saves: bool, path: string)
    requires HasRepo(ask) && settings.fetchChunk >= 1 && (path in ask.candidates || path in ask.protectedPaths)
    requires Truthful(runner, _ => NoText(GIT_UNAVAILABLE), commit, settings.fetchChunk)
    requires ClearBefore(Wanted(ask), path)
    ensures var fetch := FetchFrom(runner, Wanted(ask), 0, settings.fetchChunk, None);
      var result := Assembled(None, ask, fetch, settings, true, saves).0;
      result.Given? && result.fetched && result.ctx.Status(path) == Absent
  {
    hide SaysAbsent, Dedup, Wanted, FetchFrom, ReadsOf, NotesOf, Strip, Built, ReasonFor, ClearBefore;
    var tree: Tree := _ => NoText(GIT_UNAVAILABLE);
    WantedIsAll(ask);
    assert path in Wanted(ask);
    ChunkSizeIsInvisible(runner, tree, commit, Wanted(ask), 0, settings.fetchChunk, None, settings.fetchChunk);
    LookupRead(tree, Wanted(ask), path);
    UnreadIff(ask, ReadsOf(tree, Wanted(ask)), NotesOf(tree, Wanted(ask)),
              if Wanted(ask) == [] then None else commit, 1, path);
    ReasonIsOwn(tree, Wanted(ask), path);
    GitReasonStripped();
  }

  lemma GitReasonStripped()
    ensures SaysAbsent(Strip(" " + GIT_UNAVAILABLE))
  {
    hide SaysAbsent;
    var g := GIT_UNAVAILABLE;
    assert g[0] == 'g' && g[|g| - 1] == '\'';
    StripsToItself(g);
    NoSuchFileSaysAbsent("git unavailable: ", ": 'git'");
  }

  lemma StripsToItself(s: string)
    requires s != "" && !IsSpace(s[0]) && !IsSpace(s[|s| - 1])
    ensures Strip(" " + s) == s
  {
    assert (" " + s)[|s|] == s[|s| - 1] && RStrip(" " + s) == " " + s;
    assert (" " + s)[1..] == s && LStrip(s) == s;
  }

  /** The trees the runner serves, by repository and ref; a ref that is pinned cannot move. */
  type World = (string, string) -> Tree

  /** The stored context came from a completed fetch of a tree that has not changed since. */
  ghost predicate Faithful(stored: Option<Context>, world: World) {
    stored.Some? ==>
      var ctx := stored.value;
      && ctx.repo.Some? && !ctx.stale
      && forall p :: p in ctx.candidates || p in ctx.protectedPaths ==>
           PlaceOf(ctx, p) == PlaceIn(world(ctx.repo.value, ctx.baseRef), PathsOf(ctx), ctx.protectedPaths, p)
  }

  /** The paths the stored context was fetched for. */
  function PathsOf(ctx: Context): seq<string> {
    Requested(ctx.candidates, ctx.protectedPaths)
  }

  /** One call: what is asked, and a runner that tells the truth or nothing. */
  datatype Call = Call(ask: Request, runner: Runner, loads: bool, saves: bool)

  ghost predicate Honest(call: Call, limit: nat, world: World) {
    call.ask.repo.Some? ==> Intermittent(call.runner, world(call.ask.repo.value, call.ask.baseRef), limit)
  }

  function Outcome(stored: Option<Context>, call: Call, settings: Settings): (Result, Option<Context>)
    requires settings.fetchChunk >= 1
  {
    Assembled(stored, call.ask, FetchFrom(call.runner, Wanted(call.ask), 0, settings.fetchChunk, None), settings,
              call.loads, call.saves)
  }

  function TreeFor(ask: Request, world: World): Tree
    requires ask.repo.Some?
  {
    world(ask.repo.value, ask.baseRef)
  }

  /** A path asked for lands, in this context, where a fetch made for this very request would put it. */
  predicate AsFresh(ctx: Context, ask: Request, world: World, path: string)
    requires ask.repo.Some?
  {
    PlaceOf(ctx, path) == PlaceIn(TreeFor(ask, world), Wanted(ask), ask.protectedPaths, path)
  }

  /** The same section, and the same content or none. */
  predicate SameStanding(a: Place, b: Place) {
    match a
    case Shown(section, content) => b == Shown(section, content)
    case Left(section, _) => b.Left? && b.section == section
    case Nowhere => b == Nowhere
  }

  /** The same, whatever the reason given for a path that was not read. */
  predicate StandsAsFresh(ctx: Context, ask: Request, world: World, path: string)
    requires ask.repo.Some?
  {
    SameStanding(PlaceOf(ctx, path), PlaceIn(TreeFor(ask, world), Wanted(ask), ask.protectedPaths, path))
  }

  /** A candidate the stored context holds as protected and this request no longer protects. */
  predicate Unprotected(stored: Context, ask: Request, path: string) {
    path in stored.protectedPaths && path !in ask.protectedPaths
  }

  /** An unread path is given the same reason among the stored context's paths as among this request's. */
  predicate SameReason(stored: Context, ask: Request, world: World, path: string)
    requires ask.repo.Some?
  {
    var tree := TreeFor(ask, world);
    tree(path).NoText? ==>
      ReasonFor(path, NotesOf(tree, PathsOf(stored))) == ReasonFor(path, NotesOf(tree, Wanted(ask)))
  }

  lemma SameReasonWhenClear(stored: Context, ask: Request, world: World, path: string)
    requires ask.repo.Some? && stored.Covers(ask.candidates, ask.protectedPaths)
    requires Distinct(stored.candidates) && Distinct(stored.protectedPaths)
    requires path in ask.candidates || path in ask.protectedPaths
    requires Clear(PathsOf(stored), path)
    ensures SameReason(stored, ask, world, path)
  {
    hide Dedup, Strip, Clash, NotesOf, ReasonFor, Requested, Wanted, ClearBefore;
    var tree := TreeFor(ask, world);
    RequestedIsAll(stored.candidates, stored.protectedPaths);
    WantedIsAll(ask);
    if tree(path).NoText? {
      assert path in PathsOf(stored) && path in Wanted(ask);
      assert forall q <- Wanted(ask) :: q in PathsOf(stored);
      ClearIsClearBefore(PathsOf(stored), path);
      ClearIsClearBefore(Wanted(ask), path);
      ReasonIsOwn(tree, PathsOf(stored), path);
      ReasonIsOwn(tree, Wanted(ask), path);
    }
  }

  lemma FetchedIsAsFresh(call: Call, settings: Settings, world: World, fetches: nat, path: string)
    requires settings.fetchChunk >= 1 && HasRepo(call.ask) && Honest(call, settings.fetchChunk, world)
    requires path in call.ask.candidates || path in call.ask.protectedPaths
    ensures var ask := call.ask;
      var fetch := FetchFrom(call.runner, Wanted(ask), 0, settings.fetchChunk, None);
      fetch.Fetched? ==>
        AsFresh(Built(ask, fetch.files, fetch.problems, fetch.refState, fetches), ask, world, path)
  {
    hide Dedup, Built, PlaceOf, FetchFrom, ReadsOf, NotesOf, Wanted, Intermittent, ReasonFor;
    var ask := call.ask;
    var tree, fetch := TreeFor(ask, world), FetchFrom(call.runner, Wanted(ask), 0, settings.fetchChunk, None);
    CompletedFetchIsWhole(call.runner, tree, Wanted(ask), 0, settings.fetchChunk, None, settings.fetchChunk);
    if fetch.Fetched? {
      BuiltFromTree(ask, tree, fetch.refState, fetches, path);
    }
  }

  /** What one call leaves in context.json is faithful again. */
  lemma FaithfulIsKept(stored: Option<Context>, call: Call, settings: Settings, world: World)
    requires settings.fetchChunk >= 1 && Faithful(stored, world) && Honest(call, settings.fetchChunk, world)
    ensures Faithful(Outcome(stored, call, settings).1, world)
  {
    hide Dedup, PlaceOf, FetchFrom, Requested, PlaceIn, Reusable, Honest;
    var ask := call.ask;
    if HasRepo(ask) && Outcome(stored, call, settings).1 != stored {
      var ctx := Outcome(stored, call, settings).1.value;
      forall p | p in ctx.candidates || p in ctx.protectedPaths
        ensures PlaceOf(ctx, p) == PlaceIn(world(ctx.repo.value, ctx.baseRef), PathsOf(ctx), ctx.protectedPaths, p)
      {
        FetchedIsAsFresh(call, settings, world, ctx.fetches, p);
        SamePlace(TreeFor(ask, world), PathsOf(ctx), p, ask.protectedPaths);
      }
    }
  }

  lemma SamePlace(tree: Tree, paths: seq<string>, path: string, offLimits: seq<string>)
    ensures PlaceIn(tree, paths, Dedup(offLimits), path) == PlaceIn(tree, paths, offLimits, path)
  {
    hide Dedup, ReasonFor, NotesOf;
  }

  /** The call served the stored context, as it was or marked stale. */
  predicate Reused(stored: Option<Context>, call: Call, result: Result) {
    result.Given? && !result.fetched && call.loads && Reusable(stored, call.ask)
  }

  lemma ReusedIsStored(stored: Option<Context>, call: Call, settings: Settings, path: string)
    requires settings.fetchChunk >= 1 && HasRepo(call.ask)
    requires path in call.ask.candidates || path in call.ask.protectedPaths
    ensures var result := Outcome(stored, call, settings).0;
      && (Reused(stored, call, result) ==>
            PlaceOf(result.ctx, path) == PlaceOf(stored.value, path) && result.ctx.repo == call.ask.repo)
      && (result.Given? && result.fetched ==>
            var fetch := FetchFrom(call.runner, Wanted(call.ask), 0, settings.fetchChunk, None);
            fetch.Fetched?
            && result.ctx == Built(call.ask, fetch.files, fetch.problems, fetch.refState, result.ctx.fetches))
  {
    hide Dedup, PlaceOf, FetchFrom, Wanted;
    var result := Outcome(stored, call, settings).0;
    WantedIsAll(call.ask);
    assert path in Wanted(call.ask);
    if Reused(stored, call, result) {
      assert result.ctx == stored.value || result.ctx == stored.value.(stale := true);
      StaleIsSamePlace(stored.value, path);
    }
  }

  /**
   A reused context stands as a fresh fetch does on a requested path if and only if the path has not left the
   protected set since: the reuse test looks only for growth. It agrees entirely when, besides, an
   unread path is given the same reason. A context fetched by the call always agrees.
   */
  lemma ReuseIsFreshIff(stored: Option<Context>, call: Call, settings: Settings, world: World, path: string)
    requires settings.fetchChunk >= 1 && Faithful(stored, world) && Honest(call, settings.fetchChunk, world)
    requires HasRepo(call.ask) && (path in call.ask.candidates || path in call.ask.protectedPaths)
    ensures var ask, result := call.ask, Outcome(stored, call, settings).0;
      && (result.Given? && result.fetched ==> AsFresh(result.ctx, ask, world, path))
      && (Reused(stored, call, result) ==>
            && (StandsAsFresh(result.ctx, ask, world, path) <==> !Unprotected(stored.value, ask, path))
            && (AsFresh(result.ctx, ask, world, path)
                <==> !Unprotected(stored.value, ask, path) && SameReason(stored.value, ask, world, path)))
  {
    hide Dedup, PlaceOf, FetchFrom, Requested, Honest, NotesOf, ReasonFor, Outcome, Built;
    var ask, result := call.ask, Outcome(stored, call, settings).0;
    ReusedIsStored(stored, call, settings, path);
    if result.Given? && result.fetched {
      FetchedIsAsFresh(call, settings, world, result.ctx.fetches, path);
    }
  }

  /** The status a fetch made for this very request would give. */
  function FreshStatus(ask: Request, world: World, path: string): Status
    requires ask.repo.Some?
  {
    match TreeFor(ask, world)(path)
    case Text(_) => Found
    case NoText(_) => OmissionStatus(ReasonFor(path, NotesOf(TreeFor(ask, world), Wanted(ask))))
  }

  /** The status of a requested path is the fresh one, even for a path that left the protected set. */
  lemma StatusSurvivesReuse(stored: Option<Context>, call: Call, settings: Settings, world: World, path: string)
    requires settings.fetchChunk >= 1 && Faithful(stored, world) && Honest(call, settings.fetchChunk, world)
    requires HasRepo(call.ask) && (path in call.ask.candidates || path in call.ask.protectedPaths)
    ensures var ask, result := call.ask, Outcome(stored, call, settings).0;
      && (result.Given? && result.fetched ==> result.ctx.Status(path) == FreshStatus(ask, world, path))
      && (Reused(stored, call, result) ==>
            && (result.ctx.Status(path) == Found <==> FreshStatus(ask, world, path) == Found)
            && (SameReason(stored.value, ask, world, path) ==>
                  result.ctx.Status(path) == FreshStatus(ask, world, path)))
  {
    hide Dedup, PlaceOf, FetchFrom, Requested, Honest, NotesOf, ReasonFor, Outcome, Built, OmissionStatus;
    var ask, result := call.ask, Outcome(stored, call, settings).0;
    ReusedIsStored(stored, call, settings, path);
    if result.Given? && result.fetched {
      FetchedIsAsFresh(call, settings, world, result.ctx.fetches, path);
      BuiltForRepo(ask, result.ctx, FetchFrom(call.runner, Wanted(ask), 0, settings.fetchChunk, None));
      StatusIsPlace(result.ctx, path);
    } else if Reused(stored, call, result) {
      StatusIsPlace(result.ctx, path);
      NeverFoundByReason();
    }
  }

  lemma BuiltForRepo(ask: Request, ctx: Context, fetch: Fetch)
    requires fetch.Fetched? && ctx == Built(ask, fetch.files, fetch.problems, fetch.refState, ctx.fetches)
    ensures ctx.repo == ask.repo
  {
  }

  lemma NeverFoundByReason()
    ensures forall reason :: OmissionStatus(reason) != Found
  {
  }

  lemma StaleIsSamePlace(ctx: Context, path: string)
    ensures PlaceOf(ctx.(stale := true), path) == PlaceOf(ctx, path)
  {
  }

  /** A context pinned to a commit, with one file that was both a candidate and protected. */
  function ProtectedA(): Context {
    Context(Some("app"), "abcdef0", ["a"], [], ["a"], [], [File("a", "x")], None, [], 0.0, "", 1, false)
  }

  /** The failing family is real: a protected file that becomes editable is still served as protected. */
  lemma ShrunkProtectedSetIsReused(fetch: Fetch, settings: Settings, saves: bool)
    ensures var stored := ProtectedA();
      var ask := Request(Some("app"), "abcdef0", ["a"], [], [], "", 0.0, false);
      && Assembled(Some(stored), ask, fetch, settings, true, saves).0 == Given(stored, false)
      && PlaceOf(stored, "a") == Shown(ProtectedSection, "x")
      && PlaceIn(_ => Text("x"), Wanted(ask), ask.protectedPaths, "a") == Shown(EditableSection, "x")
  {
    var stored := ProtectedA();
    assert Lookup([File("a", "x")], "a") == Some("x");
    assert PinnedRef("abcdef0") by {
      var r := "abcdef0";
      assert HexDigit(r[0]) && HexDigit(r[1]) && HexDigit(r[2]) && HexDigit(r[3]) && HexDigit(r[4]) && HexDigit(r[5]);
      assert HexDigit(r[6]) && !HexDigit('\n');
    }
    assert stored.Covers(["a"], []);
  }

  // ----- whole runs

  function StoredAfter(calls: seq<Call>, settings: Settings): Option<Context>
    requires settings.fetchChunk >= 1
  {
    if calls == [] then None
    else Outcome(StoredAfter(calls[..|calls| - 1], settings), calls[|calls| - 1], settings).1
  }

  ghost predicate AllHonest(calls: seq<Call>, limit: nat, world: World) {
    forall i :: 0 <= i < |calls| ==> Honest(calls[i], limit, world)
  }

  /** In any run of calls and outages, from an empty directory, context.json stays faithful. */
  lemma {:induction false} EveryRunIsFaithful(calls: seq<Call>, settings: Settings, world: World)
    requires settings.fetchChunk >= 1 && AllHonest(calls, settings.fetchChunk, world)
    ensures Faithful(StoredAfter(calls, settings), world)
  {
    hide Faithful, Honest, Outcome;
    if calls == [] {
      NothingIsFaithful(world);
    } else {
      var before := calls[..|calls| - 1];
      EveryRunIsFaithful(before, settings, world);
      FaithfulIsKept(StoredAfter(before, settings), calls[|calls| - 1], settings, world);
    }
  }

  lemma NothingIsFaithful(world: World)
    ensures Faithful(None, world)
  {
  }

  /** Every stored context was asked for lists without repeats. */
  lemma {:induction false} StoredIsDistinct(calls: seq<Call>, settings: Settings)
    requires settings.fetchChunk >= 1
    ensures var stored := StoredAfter(calls, settings);
      stored.Some? ==> Distinct(stored.value.candidates) && Distinct(stored.value.protectedPaths)
  {
    hide Dedup, FetchFrom, Wanted, Distinct;
    if calls != [] {
      StoredIsDistinct(calls[..|calls| - 1], settings);
    }
  }

  /**
   So any call of any run serves each requested path as a fresh fetch would: entirely when it fetched, with the
   same section and content when it reused a context and the path was not unprotected since, and entirely then
   too when no path of the stored context clashes with it.
   */
  lemma EveryRunServesFresh(calls: seq<Call>, call: Call, settings: Settings, world: World, path: string)
    requires settings.fetchChunk >= 1 && AllHonest(calls, settings.fetchChunk, world)
    requires Honest(call, settings.fetchChunk, world) && HasRepo(call.ask)
    requires path in call.ask.candidates || path in call.ask.protectedPaths
    ensures var stored := StoredAfter(calls, settings); var ask, result := call.ask, Outcome(stored, call, settings).0;
      && (result.Given? && result.fetched ==> AsFresh(result.ctx, ask, world, path))
      && (Reused(stored, call, result) && !Unprotected(stored.value, ask, path) ==>
            && StandsAsFresh(result.ctx, ask, world, path)
            && (Clear(PathsOf(stored.value), path) ==> AsFresh(result.ctx, ask, world, path)))
  {
    hide Outcome, AsFresh, StandsAsFresh, Honest, Faithful, SameReason, Clear, Distinct;
    EveryRunIsFaithful(calls, settings, world);
    StoredIsDistinct(calls, settings);
    var stored := StoredAfter(calls, settings);
    ReuseIsFreshIff(stored, call, settings, world, path);
    if Reused(stored, call, Outcome(stored, call, settings).0) && Clear(PathsOf(stored.value), path) {
      SameReasonWhenClear(stored.value, call.ask, world, path);
    }
  }
}
