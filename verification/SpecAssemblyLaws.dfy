/** What one call of the assembly comes to: when the stored context serves, when it is fetched again, and what then. */
module SpecAssemblyLaws {
  import opened Options
  import opened EditText
  import opened SpecContext
  import opened SpecContextLaws

  // ----- reading the answers

  /** Of two files with one path the later counts. */
  lemma {:induction false} LastContentCounts(files: seq<File>, k: nat)
    requires k < |files| && forall j :: k < j < |files| ==> files[j].path != files[k].path
    ensures Lookup(files, files[k].path) == Some(files[k].content)
    decreases |files|
  {
    if k < |files| - 1 {
      assert files[..|files| - 1][k] == files[k];
      LastContentCounts(files[..|files| - 1], k);
    }
  }

  lemma {:induction false} UnreadIsNowhere(files: seq<File>, path: string)
    ensures Lookup(files, path) == None <==> forall k :: 0 <= k < |files| ==> files[k].path != path
  {
    if files != [] {
      UnreadIsNowhere(files[..|files| - 1], path);
    }
  }

  /** The reason is the first problem that begins with the path and a colon, and there is one for a path never named. */
  lemma {:induction false} FirstProblemCounts(path: string, problems: seq<string>, k: nat)
    requires k <= |problems| && forall j :: 0 <= j < k ==> !(path + ":" <= problems[j])
    requires k < |problems| ==> path + ":" <= problems[k]
    ensures ReasonFor(path, problems)
         == if k == |problems| then "not returned by the runner" else Strip(problems[k][|path| + 1..])
  {
    if k > 0 {
      FirstProblemCounts(path, problems[1..], k - 1);
    }
  }

  /** The words, written in small letters, stand at `k` in any case of letters. */
  predicate StandsAt(text: string, words: string, k: nat) {
    k + |words| <= |text| && forall i :: 0 <= i < |words| ==> SameSmallLetter(text[k..][i], words[i])
  }

  /** The character, or where it is a small letter also its capital. */
  predicate SameSmallLetter(c: char, small: char) {
    c == small || ('a' <= small <= 'z' && c as int == small as int - 32)
  }

  lemma StandsIff(text: string, words: string, k: nat)
    requires forall i :: 0 <= i < |words| ==> !('A' <= words[i] <= 'Z')
    ensures StandsAt(text, words, k) <==> MentionsAt(text, words, k)
  {
    assert forall c: char, w: char :: !('A' <= w <= 'Z') ==> (Lower(c) == w <==> SameSmallLetter(c, w));
    hide Lower, SameSmallLetter;
    if k <= |text| {
      assert forall i :: 0 <= i < |words| && k + |words| <= |text| ==> text[k..][i] == text[k + i];
    }
  }

  predicate SoundsAbsentAt(reason: string, k: nat) {
    || StandsAt(reason, "does not exist", k) || StandsAt(reason, "not found", k)
    || StandsAt(reason, "no such file", k) || StandsAt(reason, "exists on disk, but not in", k)
  }

  lemma SoundsIff(reason: string, k: nat)
    ensures SoundsAbsentAt(reason, k) <==>
      || MentionsAt(reason, ABSENT_WORDS[0], k) || MentionsAt(reason, ABSENT_WORDS[1], k)
      || MentionsAt(reason, ABSENT_WORDS[2], k) || MentionsAt(reason, ABSENT_WORDS[3], k)
  {
    StandsIff(reason, "does not exist", k);
    StandsIff(reason, "not found", k);
    StandsIff(reason, "no such file", k);
    StandsIff(reason, "exists on disk, but not in", k);
    hide StandsAt, MentionsAt;
  }

  /** The phrases that sound like an absence, in any case of letters, anywhere in the reason. */
  lemma AbsencePhrases(reason: string)
    ensures SaysAbsent(reason) <==> exists k: nat :: SoundsAbsentAt(reason, k)
  {
    hide MentionsAt, SoundsAbsentAt;
    if SaysAbsent(reason) {
      var w :| 0 <= w < |ABSENT_WORDS| && Mentions(reason, ABSENT_WORDS[w]);
      assert w == 0 || w == 1 || w == 2 || w == 3;
      var k: nat :| k <= |reason| && MentionsAt(reason, ABSENT_WORDS[w], k);
      SoundsIff(reason, k);
    }
    if k: nat :| SoundsAbsentAt(reason, k) {
      SoundsIff(reason, k);
      var w := if MentionsAt(reason, ABSENT_WORDS[0], k) then 0
               else if MentionsAt(reason, ABSENT_WORDS[1], k) then 1
               else if MentionsAt(reason, ABSENT_WORDS[2], k) then 2 else 3;
      MentionIsInside(reason, ABSENT_WORDS[w], k);
      assert Mentions(reason, ABSENT_WORDS[w]);
    }
  }

  lemma MentionIsInside(text: string, words: string, k: nat)
    requires MentionsAt(text, words, k)
    ensures k <= |text|
  {
  }

  predicate HoldsFile(files: seq<File>, path: string) {
    exists k :: 0 <= k < |files| && files[k].path == path
  }

  /** The first omission of the path is at `k`, or there is none when `k` is past them all. */
  predicate FirstLeftOutAt(omitted: seq<Omission>, path: string, k: nat) {
    && k <= |omitted| && (forall j :: 0 <= j < k ==> omitted[j].path != path)
    && (k < |omitted| ==> omitted[k].path == path)
  }

  lemma {:induction false} FirstOmissionAt(omitted: seq<Omission>, path: string, k: nat)
    requires FirstLeftOutAt(omitted, path, k)
    ensures FirstOmission(omitted, path) == if k == |omitted| then None else Some(omitted[k])
  {
    if k > 0 {
      FirstOmissionAt(omitted[1..], path, k - 1);
    }
  }

  /**
   A path is found when a file of it is held. Else it is absent when there is no repository, or when the reason it
   was left out for sounds like an absence; and unread in all other cases.
   */
  lemma StatusIs(ctx: Context, path: string, k: nat)
    requires FirstLeftOutAt(ctx.omitted, path, k)
    ensures ctx.Status(path)
         == if HoldsFile(ctx.editable, path) || HoldsFile(ctx.protected, path) then Found
            else if ctx.repo == None then Absent
            else if k < |ctx.omitted| && SaysAbsent(ctx.omitted[k].reason) then Absent
            else Unread
  {
    hide SaysAbsent, FirstOmission, Lookup;
    UnreadIsNowhere(ctx.editable, path);
    UnreadIsNowhere(ctx.protected, path);
    FirstOmissionAt(ctx.omitted, path, k);
  }

  // ----- one chunk of a fetch

  /** Nothing was read, and the one problem is about none of the paths asked for. */
  predicate NothingServed(files: seq<File>, problems: seq<string>, chunk: seq<string>) {
    files == [] && |problems| == 1 && forall p <- chunk :: !(p + ":" <= problems[0])
  }

  /**
   Each chunk is at most `size` paths. Its answer ends the fetch if it raises, or if nothing was served; else the
   fetch goes on, with the commit if this is the answer that first gave it. A runner that cannot be asked for the
   commit is asked once more without.
   */
  lemma ChunkDecides(runner: Runner, paths: seq<string>, i: nat, size: nat, known: Option<string>)
    requires size >= 1 && paths != []
    ensures var n := if size < |paths| then size else |paths|;
      var first := runner(i, paths[..n], known == None);
      var again := known == None && first.Raises? && first.badCall;
      var answer := if again then runner(i, paths[..n], false) else first;
      var fetch := FetchFrom(runner, paths, i, size, known);
      match answer
      case Raises(message, _) => fetch == Failed(message)
      case Answer(files, problems, refState) =>
        if NothingServed(files, problems, paths[..n]) then fetch == Outage(problems[0])
        else
          var commit := if known.Some? then known else if again then None else refState;
          match FetchFrom(runner, paths[n..], i + 1, size, commit)
          case Fetched(later, more, served) => fetch == Fetched(files + later, problems + more, served)
          case Outage(problem) => fetch == Outage(problem)
          case Failed(message) => fetch == Failed(message)
  {
  }

  // ----- which branch a call takes

  /** A ref that cannot move: seven to forty hexadecimal digits, and at most a line break after them. */
  ghost predicate CannotMove(baseRef: string) {
    exists digits: string :: (baseRef == digits || baseRef == digits + "\n") && AreDigits(digits)
  }

  predicate AreDigits(digits: string) {
    7 <= |digits| <= 40 && forall c <- digits :: '0' <= c <= '9' || 'a' <= c <= 'f'
  }

  lemma PinnedIff(baseRef: string)
    ensures PinnedRef(baseRef) <==> CannotMove(baseRef)
  {
    if digits: string :| (baseRef == digits || baseRef == digits + "\n") && AreDigits(digits) {
      forall i | 0 <= i < |digits| ensures HexDigit(digits[i]) {
        assert digits[i] in digits;
      }
      if baseRef == digits + "\n" {
        assert baseRef[..|baseRef| - 1] == digits;
      }
    }
    if PinnedRef(baseRef) {
      var digits := if baseRef != "" && baseRef[|baseRef| - 1] == '\n' then baseRef[..|baseRef| - 1] else baseRef;
      assert 7 <= |digits| <= 40 && AllHex(digits);
      forall c <- digits ensures HexDigit(c) {
        var i :| 0 <= i < |digits| && digits[i] == c;
      }
      assert AreDigits(digits);
      assert baseRef[|baseRef| - 1] == '\n' ==> baseRef == digits + "\n";
    }
  }

  /** There is a stored context for the same repository and ref that was asked for all these paths. */
  predicate CouldServe(stored: Option<Context>, ask: Request, loads: bool) {
    && loads && stored.Some? && !ask.force
    && stored.value.repo == ask.repo && stored.value.baseRef == ask.baseRef
    && (forall p <- ask.candidates :: p in stored.value.candidates)
    && (forall p <- ask.protectedPaths :: p in stored.value.protectedPaths)
  }

  /** Its ref cannot move, or it was fetched less than the refresh time ago. */
  ghost predicate NewEnough(ctx: Context, now: real, refreshSeconds: real) {
    CannotMove(ctx.baseRef) || now < ctx.fetchedAt + refreshSeconds
  }

  predicate NamesRepo(ask: Request) {
    ask.repo != None && ask.repo.value != ""
  }

  predicate AsksForSomething(ask: Request) {
    ask.candidates != [] || ask.protectedPaths != []
  }

  lemma BranchesAre(stored: Option<Context>, ask: Request, settings: Settings, loads: bool)
    ensures HasRepo(ask) <==> NamesRepo(ask)
    ensures Reusable(if loads then stored else None, ask) <==> CouldServe(stored, ask, loads)
    ensures stored.Some? ==>
      (stored.value.Fresh(ask.now, settings.refreshSeconds)
       <==> NewEnough(stored.value, ask.now, settings.refreshSeconds))
    ensures Wanted(ask) != [] <==> AsksForSomething(ask)
  {
    hide PinnedRef, CannotMove, Wanted, AsksForSomething;
    if stored.Some? {
      PinnedIff(stored.value.baseRef);
    }
    AsksIff(ask);
  }

  lemma AsksIff(ask: Request)
    ensures Wanted(ask) != [] <==> AsksForSomething(ask)
  {
    hide Wanted;
    WantedIsAll(ask);
    if AsksForSomething(ask) {
      var p := if ask.candidates != [] then ask.candidates[0] else ask.protectedPaths[0];
      assert p in Wanted(ask);
    }
    if Wanted(ask) != [] {
      assert Wanted(ask)[0] in Wanted(ask);
    }
  }

  /** The stored context is handed back as it is exactly when it could serve and is new enough. */
  lemma NewEnoughIsServed(stored: Option<Context>, ask: Request, fetch: Fetch, settings: Settings, loads: bool,
                          saves: bool)
    requires NamesRepo(ask) && CouldServe(stored, ask, loads)
    requires NewEnough(stored.value, ask.now, settings.refreshSeconds)
    ensures Assembled(stored, ask, fetch, settings, loads, saves) == (Given(stored.value, false), stored)
  {
    BranchesAre(stored, ask, settings, loads);
    hide Wanted, CannotMove, PinnedRef, Built, CouldServe;
  }

  /** A context of the request that holds no file and accounts for none. */
  ghost predicate IsEmptyFor(ctx: Context, ask: Request) {
    && ctx.editable == [] && ctx.protected == [] && ctx.omitted == [] && ctx.fetches == 0 && !ctx.stale
    && ctx.baseRef == ask.baseRef && ctx.fetchedAt == ask.now && ctx.fetchedBy == ask.role && ctx.refState == None
    && (forall p :: p in ctx.candidates <==> p in ask.candidates)
    && (forall p :: p in ctx.protectedPaths <==> p in ask.protectedPaths)
  }

  /** Without a repository, or with nothing to ask for, the context is empty and nothing is fetched or stored. */
  lemma NothingToFetch(stored: Option<Context>, ask: Request, fetch: Fetch, settings: Settings, loads: bool,
                       saves: bool)
    requires !NamesRepo(ask) || (!AsksForSomething(ask) && !CouldServe(stored, ask, loads))
    ensures var (result, after) := Assembled(stored, ask, fetch, settings, loads, saves);
      && after == stored && result.Given? && !result.fetched && IsEmptyFor(result.ctx, ask)
      && result.ctx.repo == if NamesRepo(ask) then ask.repo else None
  {
    BranchesAre(stored, ask, settings, loads);
    hide Wanted, CannotMove, PinnedRef, Built, CouldServe, Reusable;
  }

  /** The call has to fetch: there is something to read, and what is stored does not serve or is too old. */
  ghost predicate MustFetch(stored: Option<Context>, ask: Request, settings: Settings, loads: bool) {
    && NamesRepo(ask) && AsksForSomething(ask)
    && !(CouldServe(stored, ask, loads) && NewEnough(stored.value, ask.now, settings.refreshSeconds))
  }

  /**
   A fetch that completes is what the role is given, stamped with the call and counted after the context it replaces;
   it is stored where it can be.
   */
  lemma FetchIsServed(stored: Option<Context>, ask: Request, fetch: Fetch, settings: Settings, loads: bool, saves: bool)
    requires MustFetch(stored, ask, settings, loads) && fetch.Fetched?
    ensures var (result, after) := Assembled(stored, ask, fetch, settings, loads, saves);
      && result.Given? && result.fetched && after == (if saves then Some(result.ctx) else stored)
      && var ctx := result.ctx;
         && ctx.repo == ask.repo && ctx.baseRef == ask.baseRef && ctx.declared == ask.declared
         && ctx.refState == fetch.refState && !ctx.stale && ctx.fetchedAt == ask.now && ctx.fetchedBy == ask.role
         && ctx.fetches == (if loads && stored.Some? then stored.value.fetches + 1 else 1)
         && (forall p :: p in ctx.candidates <==> p in ask.candidates)
         && (forall p :: p in ctx.protectedPaths <==> p in ask.protectedPaths)
         && ctx.omitted == Omissions(Wanted(ask), ctx.protectedPaths, fetch.files, fetch.problems)
  {
    BranchesAre(stored, ask, settings, loads);
    hide Wanted, CannotMove, PinnedRef, CouldServe, Omissions, Served, Without;
  }

  /** The stored context, marked as stale. */
  predicate IsStaleCopy(ctx: Context, stored: Context) {
    ctx.stale && ctx == stored.(stale := true)
  }

  /**
   An outage or a failed read leaves what is stored as it is. What could serve is handed back marked stale; else an
   outage stops the call, and a failed read leaves every path out with the failure as its reason.
   */
  lemma TroubleIsToldOrBridged(stored: Option<Context>, ask: Request, fetch: Fetch, settings: Settings, loads: bool,
                               saves: bool)
    requires MustFetch(stored, ask, settings, loads) && !fetch.Fetched?
    ensures var (result, after) := Assembled(stored, ask, fetch, settings, loads, saves);
      && after == stored
      && (CouldServe(stored, ask, loads) ==>
            result.Given? && !result.fetched && IsStaleCopy(result.ctx, stored.value))
      && (!CouldServe(stored, ask, loads) && fetch.Outage? ==> result == RunnerOutage(fetch.problem))
      && (!CouldServe(stored, ask, loads) && fetch.Failed? ==>
            && result.Given? && !result.fetched && result.ctx.editable == [] && result.ctx.protected == []
            && |result.ctx.omitted| == |Wanted(ask)|
            && forall k :: 0 <= k < |Wanted(ask)| ==>
                 && result.ctx.omitted[k].path == Wanted(ask)[k]
                 && result.ctx.omitted[k].reason == "read failed: " + fetch.message)
  {
    BranchesAre(stored, ask, settings, loads);
    hide Wanted, CannotMove, PinnedRef, CouldServe, Built, Dedup;
  }
}
