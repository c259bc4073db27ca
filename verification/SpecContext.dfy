/**
 One spec's repository context: fetched from the runner in chunks, kept in context.json, and reused while
 it covers what a role asks for. Every requested path lands in exactly one place, and a reused context
 agrees with a fresh fetch on every path except a candidate that has left the protected set.
 */
module SpecContext {
  import opened Options
  import opened EditText

  datatype File = File(path: string, content: string)

  datatype Section = EditableSection | ProtectedSection

  /** A path the context could not include, with the section it was meant for and the problem that kept it out. */
  datatype Omission = Omission(path: string, section: Section, reason: string)

  datatype Status = Found | Absent | Unread

  datatype Context = Context(
    repo: Option<string>, baseRef: string, candidates: seq<string>, declared: seq<string>, protectedPaths: seq<string>,
    editable: seq<File>, protected: seq<File>, refState: Option<string>, omitted: seq<Omission>,
    fetchedAt: real, fetchedBy: string, fetches: nat, stale: bool)
  {
    /** What the context says of a path: absent only when the runner said so, or there is no repository. */
    function Status(path: string): Status {
      if Lookup(editable, path).Some? || Lookup(protected, path).Some? then Found
      else if repo.None? then Absent
      else
        match FirstOmission(omitted, path)
        case Some(o) => OmissionStatus(o.reason)
        case None => Unread
    }

    /** The reuse test: both requested sets must already have been asked for. */
    predicate Covers(asked: seq<string>, offLimits: seq<string>) {
      (forall p <- asked :: p in candidates) && (forall p <- offLimits :: p in protectedPaths)
    }

    predicate Fresh(now: real, refreshSeconds: real) {
      PinnedRef(baseRef) || now - fetchedAt < refreshSeconds
    }
  }

  predicate HexDigit(c: char) {
    '0' <= c <= '9' || 'a' <= c <= 'f'
  }

  /** Seven to forty hexadecimal digits; the pattern's `$` also lets one final line break pass. */
  predicate PinnedRef(baseRef: string) {
    var digits := if baseRef != "" && baseRef[|baseRef| - 1] == '\n' then baseRef[..|baseRef| - 1] else baseRef;
    7 <= |digits| <= 40 && AllHex(digits)
  }

  predicate AllHex(digits: string) {
    forall i :: 0 <= i < |digits| ==> HexDigit(digits[i])
  }

  function Lower(c: char): char {
    if 'A' <= c <= 'Z' then c - 'A' + 'a' else c
  }

  predicate MentionsAt(text: string, words: string, k: nat) {
    k + |words| <= |text| && forall i :: 0 <= i < |words| ==> Lower(text[k + i]) == words[i]
  }

  predicate Mentions(text: string, words: string) {
    exists k: nat :: k <= |text| && MentionsAt(text, words, k)
  }

  const ABSENT_WORDS := ["does not exist", "not found", "no such file", "exists on disk, but not in"]

  predicate SaysAbsent(reason: string) {
    exists w :: 0 <= w < |ABSENT_WORDS| && Mentions(reason, ABSENT_WORDS[w])
  }

  function OmissionStatus(reason: string): Status {
    if SaysAbsent(reason) then Absent else Unread
  }

  // ----- lists of paths and files

  /** The content of a path; of two answers for one path the later counts. */
  function Lookup(files: seq<File>, path: string): Option<string> {
    if files == [] then None
    else
      var last := files[|files| - 1];
      if last.path == path then Some(last.content) else Lookup(files[..|files| - 1], path)
  }

  function FirstOmission(omitted: seq<Omission>, path: string): Option<Omission> {
    if omitted == [] then None
    else if omitted[0].path == path then Some(omitted[0])
    else FirstOmission(omitted[1..], path)
  }

  predicate Distinct(paths: seq<string>) {
    forall i, j :: 0 <= i < j < |paths| ==> paths[i] != paths[j]
  }

  /** Each path once, where it first occurs: `dict.fromkeys`. */
  function Dedup(paths: seq<string>): (r: seq<string>)
    ensures Distinct(r) && forall p :: p in r <==> p in paths
  {
    if paths == [] then []
    else
      var before, last := paths[..|paths| - 1], paths[|paths| - 1];
      assert paths == before + [last];
      Dedup(before) + if last in before then [] else [last]
  }

  lemma {:induction false} DedupOfDistinct(paths: seq<string>)
    requires Distinct(paths)
    ensures Dedup(paths) == paths
  {
    if paths != [] {
      var before := paths[..|paths| - 1];
      DedupOfDistinct(before);
      assert paths == before + [paths[|before|]] && paths[|before|] !in before;
    }
  }

  function Without(paths: seq<string>, dropped: seq<string>): (r: seq<string>)
    ensures forall p :: p in r <==> p in paths && p !in dropped
    ensures Distinct(paths) ==> Distinct(r)
  {
    if paths == [] then []
    else
      assert paths == [paths[0]] + paths[1..];
      (if paths[0] in dropped then [] else [paths[0]]) + Without(paths[1..], dropped)
  }

  function ServedOne(path: string, files: seq<File>): seq<File> {
    match Lookup(files, path)
    case Some(c) => [File(path, c)]
    case None => []
  }

  /** The wanted paths that were read, with their content, in the order wanted. */
  function Served(wanted: seq<string>, files: seq<File>): seq<File> {
    if wanted == [] then [] else ServedOne(wanted[0], files) + Served(wanted[1..], files)
  }

  function SectionOf(path: string, protectedPaths: seq<string>): Section {
    if path in protectedPaths then ProtectedSection else EditableSection
  }

  /** The first problem that starts with the path and a colon, without them. */
  function ReasonFor(path: string, problems: seq<string>): string {
    if problems == [] then "not returned by the runner"
    else if path + ":" <= problems[0] then Strip(problems[0][|path| + 1..])
    else ReasonFor(path, problems[1..])
  }

  function Omissions(paths: seq<string>, protectedPaths: seq<string>, files: seq<File>, problems: seq<string>)
    : seq<Omission>
  {
    if paths == [] then []
    else
      (if Lookup(files, paths[0]).Some? then []
       else [Omission(paths[0], SectionOf(paths[0], protectedPaths), ReasonFor(paths[0], problems))])
      + Omissions(paths[1..], protectedPaths, files, problems)
  }

  // ----- the fetch

  /**
   What the runner answers for one chunk, with the commit that served it if it says, or an error on this side of
   the wire; `badCall` is Python's `TypeError`, which a fetch without the parameter for the commit raises.
   */
  datatype Answer =
    | Answer(files: seq<File>, problems: seq<string>, refState: Option<string>)
    | Raises(message: string, badCall: bool)

  /** The answer to the i-th chunk of a fetch from one repository at one ref, asked for the commit or not. */
  type Runner = (nat, seq<string>, bool) -> Answer

  datatype Fetch =
    | Fetched(files: seq<File>, problems: seq<string>, refState: Option<string>)
    | Outage(problem: string)
    | Failed(message: string)

  /** One problem that names none of the paths asked for: the whole read failed. */
  predicate MeansOutage(problems: seq<string>, chunk: seq<string>) {
    |problems| == 1 && forall p <- chunk :: !(p + ":" <= problems[0])
  }

  /** One chunk: the commit is asked for until one is known, and not of a fetch that cannot be asked. */
  function AskChunk(runner: Runner, i: nat, chunk: seq<string>, known: Option<string>): Answer {
    var first := runner(i, chunk, known.None?);
    if known.Some? then (if first.Answer? then first.(refState := known) else first)
    else if first.Raises? && first.badCall then
      var second := runner(i, chunk, false);
      if second.Answer? then second.(refState := None) else second
    else first
  }

  function FetchFrom(runner: Runner, paths: seq<string>, i: nat, size: nat, known: Option<string>): Fetch
    requires size >= 1
    decreases |paths|
  {
    if paths == [] then Fetched([], [], known)
    else
      var n := Min(size, |paths|);
      match AskChunk(runner, i, paths[..n], known)
      case Raises(message, _) => Failed(message)
      case Answer(got, bad, refState) =>
        if got == [] && MeansOutage(bad, paths[..n]) then Outage(bad[0])
        else Prepend(got, bad, FetchFrom(runner, paths[n..], i + 1, size, refState))
  }

  function Prepend(files: seq<File>, problems: seq<string>, rest: Fetch): Fetch {
    match rest
    case Fetched(f, p, refState) => Fetched(files + f, problems + p, refState)
    case other => other
  }

  /** One chunk of the loop. */
  lemma FetchStep(runner: Runner, rest: seq<string>, i: nat, size: nat, known: Option<string>,
                  files: seq<File>, problems: seq<string>)
    requires size >= 1 && rest != []
    ensures var n := Min(size, |rest|); var answer := AskChunk(runner, i, rest[..n], known);
      Prepend(files, problems, FetchFrom(runner, rest, i, size, known))
      == if answer.Raises? then Failed(answer.message)
         else if answer.files == [] && MeansOutage(answer.problems, rest[..n]) then Outage(answer.problems[0])
         else Prepend(files + answer.files, problems + answer.problems,
                      FetchFrom(runner, rest[n..], i + 1, size, answer.refState))
  {
    hide MeansOutage, AskChunk;
    var n := Min(size, |rest|);
    var answer := AskChunk(runner, i, rest[..n], known);
    if answer.Answer? {
      var after := FetchFrom(runner, rest[n..], i + 1, size, answer.refState);
      if after.Fetched? {
        assert files + (answer.files + after.files) == (files + answer.files) + after.files;
        assert problems + (answer.problems + after.problems) == (problems + answer.problems) + after.problems;
      }
    }
  }

  method FetchAll(runner: Runner, paths: seq<string>, size: nat) returns (r: Fetch)
    requires size >= 1
    ensures r == FetchFrom(runner, paths, 0, size, None)
  {
    hide FetchFrom;
    var files, problems := [], [];
    var refState: Option<string> := None;
    var start, i := 0, 0;
    FetchUnits(runner, paths, size);
    while start < |paths|
      invariant 0 <= start <= |paths|
      invariant FetchFrom(runner, paths, 0, size, None)
             == Prepend(files, problems, FetchFrom(runner, paths[start..], i, size, refState))
    {
      var n := Min(size, |paths| - start);
      var chunk := paths[start..start + n];
      assert paths[start..][..n] == chunk && paths[start..][n..] == paths[start + n..];
      FetchStep(runner, paths[start..], i, size, refState, files, problems);
      var answer := runner(i, chunk, refState.None?);
      if refState.None? {
        if answer.Raises? && answer.badCall {
          answer := runner(i, chunk, false);
        } else if answer.Answer? {
          refState := answer.refState;
        }
      }
      if answer.Raises? {
        return Failed(answer.message);
      }
      if answer.files == [] && MeansOutage(answer.problems, chunk) {
        return Outage(answer.problems[0]);
      }
      files := files + answer.files;
      problems := problems + answer.problems;
      start := start + n;
      i := i + 1;
    }
    assert paths[start..] == [];
    r := Fetched(files, problems, refState);
  }

  lemma FetchUnits(runner: Runner, paths: seq<string>, size: nat)
    requires size >= 1
    ensures paths[0..] == paths
    ensures Prepend([], [], FetchFrom(runner, paths, 0, size, None)) == FetchFrom(runner, paths, 0, size, None)
    ensures forall i: nat, known :: FetchFrom(runner, [], i, size, known) == Fetched([], [], known)
  {
    hide MeansOutage, AskChunk;
  }

  // ----- assembly

  function Requested(candidates: seq<string>, protectedPaths: seq<string>): seq<string> {
    Dedup(Without(candidates, protectedPaths) + protectedPaths)
  }

  datatype Request = Request(
    repo: Option<string>, baseRef: string, candidates: seq<string>, declared: seq<string>, protectedPaths: seq<string>,
    role: string, now: real, force: bool)

  /** The paths a request asks the runner for. */
  function Wanted(ask: Request): seq<string> {
    Requested(Dedup(ask.candidates), Dedup(ask.protectedPaths))
  }

  /** A context of the request with nothing in it. */
  function Blank(ask: Request, repo: Option<string>): Context {
    Context(repo, ask.baseRef, Dedup(ask.candidates), ask.declared, Dedup(ask.protectedPaths), [], [], None, [],
            ask.now, ask.role, 0, false)
  }

  /** The context one completed fetch gives. */
  function Built(ask: Request, files: seq<File>, problems: seq<string>, refState: Option<string>, fetches: nat)
    : Context
  {
    var offLimits := Dedup(ask.protectedPaths);
    Blank(ask, ask.repo).(
      editable := Served(Without(Dedup(ask.candidates), offLimits), files), protected := Served(offLimits, files),
      refState := refState, omitted := Omissions(Wanted(ask), offLimits, files, problems), fetches := fetches)
  }

  datatype Settings = Settings(refreshSeconds: real, fetchChunk: nat)

  datatype Result = Given(ctx: Context, fetched: bool) | RunnerOutage(problem: string)

  predicate HasRepo(ask: Request) {
    ask.repo.Some? && ask.repo.value != ""
  }

  predicate Reusable(stored: Option<Context>, ask: Request) {
    && stored.Some? && !ask.force && stored.value.repo == ask.repo && stored.value.baseRef == ask.baseRef
    && stored.value.Covers(ask.candidates, ask.protectedPaths)
  }

  function FailedReads(paths: seq<string>, protectedPaths: seq<string>, message: string): seq<Omission> {
    seq(|paths|, i requires 0 <= i < |paths| =>
      Omission(paths[i], SectionOf(paths[i], protectedPaths), "read failed: " + message))
  }

  /** The context after a failed read, when there is no earlier one to keep. */
  function Unreadable(ask: Request, message: string): Context {
    Blank(ask, ask.repo).(omitted := FailedReads(Wanted(ask), Dedup(ask.protectedPaths), message))
  }

  /** What a role is given, and what context.json then holds. */
  function Assembled(stored: Option<Context>, ask: Request, fetch: Fetch, settings: Settings, loads: bool, saves: bool)
    : (Result, Option<Context>)
  {
    var known := if loads then stored else None;
    var reusable := Reusable(known, ask);
    if !HasRepo(ask) then (Given(Blank(ask, None), false), stored)
    else if reusable && known.value.Fresh(ask.now, settings.refreshSeconds) then (Given(known.value, false), stored)
    else if Wanted(ask) == [] then (Given(Blank(ask, ask.repo), false), stored)
    else
      match fetch
      case Outage(problem) =>
        (if reusable then Given(known.value.(stale := true), false) else RunnerOutage(problem), stored)
      case Failed(message) =>
        (Given(if reusable then known.value.(stale := true) else Unreadable(ask, message), false), stored)
      case Fetched(files, problems, refState) =>
        var ctx := Built(ask, files, problems, refState, (if known.Some? then known.value.fetches else 0) + 1);
        (Given(ctx, true), if saves then Some(ctx) else stored)
  }

  lemma OneOmission(paths: seq<string>, i: nat, offLimits: seq<string>, files: seq<File>, problems: seq<string>)
    requires i < |paths|
    ensures var p, rest := paths[i], Omissions(paths[i + 1..], offLimits, files, problems);
      Omissions(paths[i..], offLimits, files, problems)
        == if Lookup(files, p).Some? then rest
           else [Omission(p, SectionOf(p, offLimits), ReasonFor(p, problems))] + rest
  {
    hide Lookup, SectionOf, ReasonFor;
    assert paths[i..][0] == paths[i] && paths[i..][1..] == paths[i + 1..];
  }

  /** Every path that was not read, in order, with the reason the answers give. */
  method OmissionsOf(paths: seq<string>, offLimits: seq<string>, files: seq<File>, problems: seq<string>)
    returns (omitted: seq<Omission>)
    ensures omitted == Omissions(paths, offLimits, files, problems)
  {
    hide Lookup, SectionOf, ReasonFor;
    omitted := [];
    assert paths[0..] == paths;
    for i := 0 to |paths|
      invariant Omissions(paths, offLimits, files, problems)
             == omitted + Omissions(paths[i..], offLimits, files, problems)
    {
      var p := paths[i];
      OneOmission(paths, i, offLimits, files, problems);
      hide Omissions;
      if Lookup(files, p).Some? {
        continue;
      }
      var omission := Omission(p, SectionOf(p, offLimits), ReasonFor(p, problems));
      ghost var rest := Omissions(paths[i + 1..], offLimits, files, problems);
      assert omitted + ([omission] + rest) == (omitted + [omission]) + rest;
      omitted := omitted + [omission];
    }
  }

  /** A spec's directory, as far as this module uses it: what context.json holds. */
  class Workspace {
    var stored: Option<Context>

    constructor ()
      ensures stored == None
    {
      stored := None;
    }

    /** `loads` and `saves` are false without a directory, or when context.json cannot be read or written. */
    method Assemble(ask: Request, runner: Runner, settings: Settings, loads: bool, saves: bool) returns (result: Result)
      requires settings.fetchChunk >= 1
      modifies this
      ensures var fetch := FetchFrom(runner, Wanted(ask), 0, settings.fetchChunk, None);
              (result, stored) == Assembled(old(stored), ask, fetch, settings, loads, saves)
    {
      hide Dedup, Without, Served, Omissions, FetchFrom, FailedReads, PinnedRef, Lookup;
      var candidates := Dedup(ask.candidates);
      var offLimits := Dedup(ask.protectedPaths);
      if !HasRepo(ask) {
        return Given(Blank(ask, None), false);
      }
      var known := if loads then stored else None;
      var reusable := Reusable(known, ask);
      if reusable && known.value.Fresh(ask.now, settings.refreshSeconds) {
        return Given(known.value, false);
      }
      var wanted := Without(candidates, offLimits);
      var paths := Dedup(wanted + offLimits);
      if paths == [] {
        return Given(Blank(ask, ask.repo), false);
      }
      var fetch := FetchAll(runner, paths, settings.fetchChunk);
      if fetch.Outage? {
        if reusable {
          return Given(known.value.(stale := true), false);
        }
        return RunnerOutage(fetch.problem);
      }
      if fetch.Failed? {
        if reusable {
          return Given(known.value.(stale := true), false);
        }
        return Given(Unreadable(ask, fetch.message), false);
      }
      var omitted := OmissionsOf(paths, offLimits, fetch.files, fetch.problems);
      var fetches := (if known.Some? then known.value.fetches else 0) + 1;
      var ctx := Context(ask.repo, ask.baseRef, candidates, ask.declared, offLimits, Served(wanted, fetch.files),
                         Served(offLimits, fetch.files), fetch.refState, omitted, ask.now, ask.role, fetches, false);
      if saves {
        stored := Some(ctx);
      }
      return Given(ctx, true);
    }
  }
}
