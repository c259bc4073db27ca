/**
 A bounded breadth-first crawl of one framework's reference graph. When the queue runs empty, what was
 discovered is exactly what is reachable; when the page cap stops it first, the statistics say so. Pages
 are fetched nearest first, and none twice.
 */
module Crawl {
  import opened Options

  /** What a fetched page is worth, and the pages it refers to, in order. */
  datatype Page = Page(textLength: nat, hasProse: bool, refs: seq<string>)

  /** The site: a page, or nothing where the fetch gave up or found none. */
  type Site = string -> Option<Page>

  datatype Stats = Stats(
    pagesKept: nat, fetched: nat, discovered: nat, queueRemaining: nat, tooShort: nat, stubsDropped: nat,
    exhausted: bool, sizeEstimate: Option<nat>)

  /** A reference the crawl follows: the root or something below it. */
  predicate InTree(root: string, u: string) {
    u == root || root + "/" <= u
  }

  predicate Kept(page: Page, skipStubs: bool) {
    page.textLength > 40 && !(skipStubs && !page.hasProse)
  }

  /** A fetch that finds a page worth keeping. */
  predicate KeptAt(site: Site, skipStubs: bool, u: string) {
    site(u).Some? && Kept(site(u).value, skipStubs)
  }

  /** Page `p` can be fetched and refers to `u`, which the crawl follows. */
  predicate Refers(site: Site, root: string, p: string, u: string) {
    site(p).Some? && u in site(p).value.refs && InTree(root, u)
  }

  /** A chain of pages from the root, each referring to the next. */
  predicate IsPath(site: Site, root: string, path: seq<string>) {
    && path != [] && path[0] == root
    && forall i :: 0 < i < |path| ==> Refers(site, root, path[i - 1], path[i])
  }

  /** `u` is `n` references from the root along some path. */
  ghost predicate At(site: Site, root: string, u: string, n: nat) {
    exists path: seq<string> :: IsPath(site, root, path) && |path| == n + 1 && path[n] == u
  }

  ghost predicate Reachable(site: Site, root: string, u: string) {
    exists n: nat :: At(site, root, u, n)
  }

  /** However near the root `v` is, `u` is at least as near. */
  ghost predicate NoFurther(site: Site, root: string, u: string, v: string) {
    forall n: nat :: At(site, root, v, n) ==> exists m: nat :: m <= n && At(site, root, u, m)
  }

  lemma RootIsAtZero(site: Site, root: string)
    ensures At(site, root, root, 0)
  {
    assert IsPath(site, root, [root]);
  }

  lemma OneFurther(site: Site, root: string, p: string, u: string, n: nat)
    requires At(site, root, p, n) && Refers(site, root, p, u)
    ensures At(site, root, u, n + 1)
  {
    hide Refers;
    var path: seq<string> :| IsPath(site, root, path) && |path| == n + 1 && path[n] == p;
    assert IsPath(site, root, path + [u]) && (path + [u])[n + 1] == u;
  }

  /** Everything a member refers to in the tree is a member. */
  ghost predicate Closed(site: Site, root: string, members: set<string>) {
    forall p, u :: p in members && Refers(site, root, p, u) ==> u in members
  }

  /** A closed set with the root holds every reachable page. */
  lemma {:induction false} ClosedHoldsPath(site: Site, root: string, members: set<string>, path: seq<string>)
    requires root in members && Closed(site, root, members) && IsPath(site, root, path)
    ensures path[|path| - 1] in members
    decreases |path|
  {
    hide Refers;
    if |path| > 1 {
      ClosedHoldsPath(site, root, members, path[..|path| - 1]);
    }
  }

  lemma ClosedHoldsReachable(site: Site, root: string, members: set<string>)
    requires root in members && Closed(site, root, members)
    ensures forall u :: Reachable(site, root, u) ==> u in members
  {
    forall u | Reachable(site, root, u) ensures u in members {
      var n: nat :| At(site, root, u, n);
      var path: seq<string> :| IsPath(site, root, path) && |path| == n + 1 && path[n] == u;
      ClosedHoldsPath(site, root, members, path);
    }
  }

  // ----- the crawl as a function

  /** What the loop has fetched, seen and queued, and the distance at which each page was seen. */
  datatype Frontier = Frontier(queue: seq<string>, seen: set<string>, visited: seq<string>, level: map<string, nat>,
                               top: nat)

  /** Unseen in-tree references are seen and queued, in order. */
  function Discover(root: string, refs: seq<string>, f: Frontier): Frontier {
    if refs == [] then f else Discover(root, refs[1..], See(root, refs[0], f))
  }

  function See(root: string, u: string, f: Frontier): Frontier {
    if InTree(root, u) && u !in f.seen
    then f.(queue := f.queue + [u], seen := f.seen + {u}, level := f.level[u := f.top])
    else f
  }

  function LevelOf(f: Frontier, path: string): nat {
    if path in f.level then f.level[path] else 0
  }

  /** The head of the queue is fetched, and counts whether or not a page comes back. */
  function Fetched(f: Frontier): Frontier
    requires f.queue != []
  {
    f.(queue := f.queue[1..], visited := f.visited + [f.queue[0]], top := LevelOf(f, f.queue[0]) + 1)
  }

  function Turn(site: Site, root: string, f: Frontier): Frontier
    requires f.queue != []
  {
    match site(f.queue[0])
    case None => Fetched(f)
    case Some(page) => Discover(root, page.refs, Fetched(f))
  }

  function Origin(root: string): Frontier {
    Frontier([root], {root}, [], map[root := 0], 0)
  }

  /** The pages of a list of fetches that are kept, in order. */
  function KeptOf(site: Site, skipStubs: bool, visited: seq<string>): seq<string> {
    if visited == [] then []
    else
      var p := visited[|visited| - 1];
      KeptOf(site, skipStubs, visited[..|visited| - 1])
      + if KeptAt(site, skipStubs, p) then [p] else []
  }

  /** The fetches that found no page. */
  function Missing(site: Site, visited: seq<string>): nat {
    if visited == [] then 0
    else Missing(site, visited[..|visited| - 1]) + if site(visited[|visited| - 1]).None? then 1 else 0
  }

  /** A page of so little text that it is not kept. */
  predicate TooLittle(page: Option<Page>) {
    page.Some? && page.value.textLength <= 40
  }

  /** A page of enough text, but none of it prose. */
  predicate IsStub(page: Option<Page>) {
    page.Some? && page.value.textLength > 40 && !page.value.hasProse
  }

  function TooShort(site: Site, visited: seq<string>): set<nat> {
    set i: nat | i < |visited| && TooLittle(site(visited[i]))
  }

  function Stubs(site: Site, visited: seq<string>): set<nat> {
    set i: nat | i < |visited| && IsStub(site(visited[i]))
  }

  lemma OneMoreTooShort(site: Site, visited: seq<string>, p: string)
    ensures |TooShort(site, visited + [p])| == |TooShort(site, visited)| + if TooLittle(site(p)) then 1 else 0
  {
    hide TooLittle;
    assert TooShort(site, visited + [p]) == TooShort(site, visited) + if TooLittle(site(p)) then {|visited|} else {};
  }

  lemma OneMoreStub(site: Site, visited: seq<string>, p: string)
    ensures |Stubs(site, visited + [p])| == |Stubs(site, visited)| + if IsStub(site(p)) then 1 else 0
  {
    hide IsStub;
    assert Stubs(site, visited + [p]) == Stubs(site, visited) + if IsStub(site(p)) then {|visited|} else {};
  }

  lemma Visit(site: Site, skipStubs: bool, visited: seq<string>, p: string)
    ensures KeptOf(site, skipStubs, visited + [p])
         == KeptOf(site, skipStubs, visited) + if KeptAt(site, skipStubs, p) then [p] else []
    ensures Missing(site, visited + [p]) == Missing(site, visited) + if site(p).None? then 1 else 0
  {
    assert (visited + [p])[..|visited|] == visited;
  }

  /** The loop's condition. */
  predicate Going(site: Site, maxPages: nat, skipStubs: bool, f: Frontier) {
    f.queue != [] && |KeptOf(site, skipStubs, f.visited)| < maxPages
  }

  /** The frontier after `n` turns of the loop, or where it stopped before. */
  function After(site: Site, root: string, maxPages: nat, skipStubs: bool, n: nat): Frontier {
    if n == 0 then Origin(root)
    else
      var f := After(site, root, maxPages, skipStubs, n - 1);
      if Going(site, maxPages, skipStubs, f) then Turn(site, root, f) else f
  }

  /** The loop has stopped after `n` turns. */
  predicate EndsBy(site: Site, root: string, maxPages: nat, skipStubs: bool, n: nat) {
    !Going(site, maxPages, skipStubs, After(site, root, maxPages, skipStubs, n))
  }

  // ----- what the crawl keeps true

  predicate Unique(s: seq<string>) {
    forall i, j :: 0 <= i < j < |s| ==> s[i] != s[j]
  }

  /** What has been seen is what was fetched and what is queued, each once. */
  ghost predicate Partitioned(f: Frontier) {
    Unique(f.visited + f.queue) && forall u :: u in f.seen <==> u in f.visited + f.queue
  }

  /** Every page seen has a level, and a path of that length. */
  ghost predicate Traced(site: Site, root: string, f: Frontier) {
    f.seen == f.level.Keys && forall u <- f.level :: At(site, root, u, f.level[u])
  }

  /** Levels never fall along the order of discovery, and none is above the top. */
  ghost predicate Ranked(f: Frontier) {
    var order := f.visited + f.queue;
    && (forall u <- order :: u in f.level && f.level[u] <= f.top)
    && forall i, j :: 0 <= i < j < |order| ==> f.level[order[i]] <= f.level[order[j]]
  }

  ghost predicate Sound(site: Site, root: string, f: Frontier) {
    Partitioned(f) && Traced(site, root, f) && Ranked(f)
  }

  /** What page `p` refers to is seen, at most one level further. */
  ghost predicate Followed(site: Site, root: string, p: string, level: map<string, nat>) {
    p in level && forall u :: Refers(site, root, p, u) ==> u in level && level[u] <= level[p] + 1
  }

  ghost predicate AllFollowed(site: Site, root: string, visited: seq<string>, level: map<string, nat>) {
    forall p <- visited :: Followed(site, root, p, level)
  }

  ghost predicate Extends(level: map<string, nat>, level0: map<string, nat>) {
    forall u <- level0 :: u in level && level[u] == level0[u]
  }

  ghost predicate Invariant(site: Site, root: string, f: Frontier) {
    && Sound(site, root, f)
    && (f.queue != [] ==> f.top <= f.level[f.queue[0]] + 1)
    && root in f.level && f.level[root] == 0
    && AllFollowed(site, root, f.visited, f.level)
  }

  lemma {:induction false} UniqueSize(s: seq<string>, members: set<string>)
    requires Unique(s) && forall u :: u in members <==> u in s
    ensures |members| == |s|
    decreases |s|
  {
    if s == [] {
      assert members == {};
    } else {
      var last := s[|s| - 1];
      var rest := s[..|s| - 1];
      assert s == rest + [last];
      UniqueSize(rest, members - {last});
    }
  }

  lemma SeeKeepsSound(site: Site, root: string, path: string, u: string, f: Frontier)
    requires Sound(site, root, f) && path in f.level && f.top == f.level[path] + 1
    requires InTree(root, u) ==> Refers(site, root, path, u)
    ensures var g := See(root, u, f);
      && Sound(site, root, g) && Extends(g.level, f.level) && g.visited == f.visited && g.top == f.top
      && (InTree(root, u) ==> u in g.level)
  {
    hide InTree, Refers, At;
    if InTree(root, u) && u !in f.seen {
      assert f.visited + (f.queue + [u]) == (f.visited + f.queue) + [u];
      OneFurther(site, root, path, u, f.level[path]);
    }
  }

  lemma {:induction false} DiscoverKeepsSound(site: Site, root: string, path: string, refs: seq<string>, f: Frontier)
    requires Sound(site, root, f) && path in f.level && f.top == f.level[path] + 1
    requires forall u <- refs :: InTree(root, u) ==> Refers(site, root, path, u)
    ensures var g := Discover(root, refs, f);
      && Sound(site, root, g) && Extends(g.level, f.level) && g.visited == f.visited && g.top == f.top
      && forall u <- refs :: InTree(root, u) ==> u in g.level
    decreases |refs|
  {
    hide InTree, Refers, Sound, See;
    if refs != [] {
      assert refs == [refs[0]] + refs[1..];
      SeeKeepsSound(site, root, path, refs[0], f);
      DiscoverKeepsSound(site, root, path, refs[1..], See(root, refs[0], f));
    }
  }

  /** Taking the head of the queue: it is new, and all but its own references stand. */
  lemma FetchedIsSound(site: Site, root: string, f: Frontier)
    requires Invariant(site, root, f) && f.queue != []
    ensures var g := Fetched(f); Sound(site, root, g) && f.queue[0] in g.level && g.top == g.level[f.queue[0]] + 1
  {
    hide At, AllFollowed;
    var order, g := f.visited + f.queue, Fetched(f);
    assert g.visited + g.queue == order && f.queue[0] == order[|f.visited|];
  }

  /** Once the page just fetched is followed, the invariant stands again. */
  lemma Resume(site: Site, root: string, f: Frontier, g: Frontier)
    requires Invariant(site, root, f) && f.queue != [] && Sound(site, root, g)
    requires g.visited == f.visited + [f.queue[0]] && Extends(g.level, f.level)
    requires Followed(site, root, f.queue[0], g.level) && g.top == g.level[f.queue[0]] + 1
    ensures Invariant(site, root, g)
  {
    hide Refers, At, Partitioned, Traced;
    var order := g.visited + g.queue;
    assert order[|f.visited|] == f.queue[0];
    if g.queue != [] {
      assert order[|f.visited| + 1] == g.queue[0];
    }
  }

  lemma TurnKeepsInvariant(site: Site, root: string, f: Frontier)
    requires Invariant(site, root, f) && f.queue != []
    ensures Invariant(site, root, Turn(site, root, f)) && Turn(site, root, f).visited == f.visited + [f.queue[0]]
  {
    hide Invariant, Sound, Discover;
    var path, g := f.queue[0], Fetched(f);
    FetchedIsSound(site, root, f);
    match site(path)
    case None => Resume(site, root, f, g);
    case Some(page) =>
      DiscoverKeepsSound(site, root, path, page.refs, g);
      SeenIsBelowTop(site, root, Discover(root, page.refs, g));
      Resume(site, root, f, Discover(root, page.refs, g));
  }

  lemma SeenIsBelowTop(site: Site, root: string, f: Frontier)
    requires Sound(site, root, f)
    ensures forall u <- f.level :: f.level[u] <= f.top
  {
    hide At;
  }

  lemma OriginIsInvariant(site: Site, root: string)
    ensures Invariant(site, root, Origin(root))
  {
    RootIsAtZero(site, root);
  }

  /** A page's level is its distance: no path to a fetched page is shorter. */
  lemma {:induction false} PathReachesLevel(site: Site, root: string, f: Frontier, path: seq<string>)
    requires Invariant(site, root, f) && IsPath(site, root, path)
    ensures forall u <- f.queue :: u in f.level
    ensures var n := |path| - 1; (path[n] in f.level && f.level[path[n]] <= n) || exists q <- f.queue :: f.level[q] <= n
    decreases |path|
  {
    hide Refers, Unique, Ranked, Traced, At;
    InSeen(site, root, f, root);
    if |path| > 1 {
      var shorter := path[..|path| - 1];
      PathReachesLevel(site, root, f, shorter);
      var p := path[|path| - 2];
      assert p == shorter[|shorter| - 1] && Refers(site, root, p, path[|path| - 1]);
      InSeen(site, root, f, p);
    }
  }

  lemma InSeen(site: Site, root: string, f: Frontier, p: string)
    requires Invariant(site, root, f)
    ensures p in f.level <==> p in f.visited || p in f.queue
    ensures forall q <- f.queue :: q in f.level
  {
  }

  /** Breadth first: an earlier fetch is at least as near the root as a later one. */
  lemma VisitedNearestFirst(site: Site, root: string, f: Frontier, i: nat, j: nat)
    requires Invariant(site, root, f) && i < j < |f.visited|
    ensures NoFurther(site, root, f.visited[i], f.visited[j])
  {
    var u, v := f.visited[i], f.visited[j];
    forall n: nat | At(site, root, v, n) ensures exists m: nat :: m <= n && At(site, root, u, m) {
      var path: seq<string> :| IsPath(site, root, path) && |path| == n + 1 && path[n] == v;
      hide IsPath, Invariant;
      PathReachesLevel(site, root, f, path);
      NoLater(site, root, f, i, j, n);
    }
  }

  /** Levels ascend: what bounds the level of a fetch, or of a page still queued, bounds that of an earlier one. */
  lemma NoLater(site: Site, root: string, f: Frontier, i: nat, j: nat, n: nat)
    requires Invariant(site, root, f) && i < j < |f.visited|
    requires f.visited[j] in f.level && forall q <- f.queue :: q in f.level
    requires f.level[f.visited[j]] <= n || exists q <- f.queue :: f.level[q] <= n
    ensures var u := f.visited[i]; u in f.level && f.level[u] <= n && At(site, root, u, f.level[u])
  {
    hide At, AllFollowed, Unique;
    var order, level := f.visited + f.queue, f.level;
    assert order[i] == f.visited[i] && order[j] == f.visited[j];
    if q :| q in f.queue && level[q] <= n {
      var k :| 0 <= k < |f.queue| && f.queue[k] == q;
      assert order[|f.visited| + k] == q;
    }
  }

  /** What the invariant says once the loop is left. */
  lemma Finish(site: Site, root: string, f: Frontier)
    requires Invariant(site, root, f)
    ensures Unique(f.visited) && |f.visited| + |f.queue| == |f.seen|
    ensures forall i, j :: 0 <= i < j < |f.visited| ==> NoFurther(site, root, f.visited[i], f.visited[j])
    ensures forall u <- f.seen :: Reachable(site, root, u)
    ensures f.queue == [] ==> forall u :: u in f.seen <==> Reachable(site, root, u)
  {
    hide At, Refers, NoFurther, Ranked;
    UniqueSize(f.visited + f.queue, f.seen);
    assert forall i :: 0 <= i < |f.visited| ==> f.visited[i] == (f.visited + f.queue)[i];
    forall i, j | 0 <= i < j < |f.visited| ensures NoFurther(site, root, f.visited[i], f.visited[j]) {
      VisitedNearestFirst(site, root, f, i, j);
    }
    if f.queue == [] {
      assert Closed(site, root, f.seen);
      ClosedHoldsReachable(site, root, f.seen);
    }
  }

  // ----- when the crawl ends

  lemma {:induction false} AfterIsInvariant(site: Site, root: string, maxPages: nat, skipStubs: bool, n: nat)
    ensures var f := After(site, root, maxPages, skipStubs, n);
      Invariant(site, root, f) && (Going(site, maxPages, skipStubs, f) ==> |f.visited| == n)
  {
    hide Invariant, Turn, KeptOf;
    if n == 0 {
      OriginIsInvariant(site, root);
    } else {
      var f := After(site, root, maxPages, skipStubs, n - 1);
      AfterIsInvariant(site, root, maxPages, skipStubs, n - 1);
      if Going(site, maxPages, skipStubs, f) {
        TurnKeepsInvariant(site, root, f);
      }
    }
  }

  /** A reachable fetch the crawl does not keep: no page, one too short, or a stub that is dropped. */
  ghost predicate Idle(site: Site, root: string, skipStubs: bool, u: string) {
    Reachable(site, root, u) && !KeptAt(site, skipStubs, u)
  }

  lemma {:induction false} VisitsAreCounted(site: Site, skipStubs: bool, visited: seq<string>, idle: set<string>)
    requires Unique(visited)
    requires forall u <- visited :: !KeptAt(site, skipStubs, u) ==> u in idle
    ensures |visited| <= |KeptOf(site, skipStubs, visited)| + |idle|
    decreases |visited|
  {
    if visited != [] {
      var before, last := visited[..|visited| - 1], visited[|visited| - 1];
      assert visited == before + [last];
      Visit(site, skipStubs, before, last);
      if KeptAt(site, skipStubs, last) {
        VisitsAreCounted(site, skipStubs, before, idle);
      } else {
        assert last in idle && last !in before;
        VisitsAreCounted(site, skipStubs, before, idle - {last});
      }
    }
  }

  /** The crawl ends wherever only finitely many reachable fetches are not kept: at the cap, if nowhere before. */
  lemma FiniteIdleEnds(site: Site, root: string, maxPages: nat, skipStubs: bool, idle: set<string>)
    requires forall u :: Idle(site, root, skipStubs, u) ==> u in idle
    ensures EndsBy(site, root, maxPages, skipStubs, maxPages + |idle|)
  {
    hide Invariant, After, KeptOf, Reachable;
    var f := After(site, root, maxPages, skipStubs, maxPages + |idle|);
    AfterIsInvariant(site, root, maxPages, skipStubs, maxPages + |idle|);
    Finish(site, root, f);
    if Going(site, maxPages, skipStubs, f) {
      VisitedIsSeen(site, root, f);
      forall u <- f.visited ensures Reachable(site, root, u) {
      }
      VisitsAreCounted(site, skipStubs, f.visited, idle);
    }
  }

  lemma VisitedIsSeen(site: Site, root: string, f: Frontier)
    requires Invariant(site, root, f)
    ensures forall u <- f.visited :: u in f.seen
  {
  }

  // ----- exactly when the crawl ends

  ghost predicate HoldsReachable(site: Site, root: string, all: set<string>) {
    forall u :: Reachable(site, root, u) ==> u in all
  }

  /** Only finitely many pages can be reached. */
  ghost predicate FinitelyMany(site: Site, root: string) {
    exists all: set<string> :: HoldsReachable(site, root, all)
  }

  ghost predicate AllKept(site: Site, root: string, skipStubs: bool, some: set<string>) {
    forall u <- some :: Reachable(site, root, u) && KeptAt(site, skipStubs, u)
  }

  /** Enough reachable pages are worth keeping to reach the cap. */
  ghost predicate EnoughKept(site: Site, root: string, maxPages: nat, skipStubs: bool) {
    exists some: set<string> :: AllKept(site, root, skipStubs, some) && |some| >= maxPages
  }

  lemma {:induction false} KeptOfIs(site: Site, skipStubs: bool, visited: seq<string>)
    ensures forall u :: u in KeptOf(site, skipStubs, visited) <==> u in visited && KeptAt(site, skipStubs, u)
    ensures Unique(visited) ==> Unique(KeptOf(site, skipStubs, visited))
    decreases |visited|
  {
    hide KeptAt;
    if visited != [] {
      var before, last := visited[..|visited| - 1], visited[|visited| - 1];
      assert visited == before + [last];
      KeptOfIs(site, skipStubs, before);
    }
  }

  lemma {:induction false} FitsIn(some: set<string>, s: seq<string>)
    requires forall u <- some :: u in s
    ensures |some| <= |s|
    decreases |s|
  {
    if s != [] {
      FitsIn(some - {s[0]}, s[1..]);
    }
  }

  lemma {:induction false} Stopped(site: Site, root: string, maxPages: nat, skipStubs: bool, n: nat, m: nat)
    requires EndsBy(site, root, maxPages, skipStubs, n) && n <= m
    ensures EndsBy(site, root, maxPages, skipStubs, m)
    decreases m
  {
    hide Going, Turn;
    if n < m {
      Stopped(site, root, maxPages, skipStubs, n, m - 1);
    }
  }

  lemma {:induction false} DiscoverKeepsQueue(root: string, refs: seq<string>, f: Frontier)
    ensures f.queue <= Discover(root, refs, f).queue && f.visited == Discover(root, refs, f).visited
    decreases |refs|
  {
    if refs != [] {
      DiscoverKeepsQueue(root, refs[1..], See(root, refs[0], f));
    }
  }

  /** A turn takes the head of the queue and leaves the others in their places, one further on. */
  lemma TurnAdvances(site: Site, root: string, f: Frontier)
    requires f.queue != []
    ensures Turn(site, root, f).visited == f.visited + [f.queue[0]] && f.queue[1..] <= Turn(site, root, f).queue
  {
    hide Discover;
    if site(f.queue[0]).Some? {
      DiscoverKeepsQueue(root, site(f.queue[0]).value.refs, Fetched(f));
    }
  }

  // ----- the order of discovery

  /** What the crawl follows: the root, and everything below it. */
  lemma InTreeIff(root: string, u: string)
    ensures InTree(root, u) <==> u == root || exists rest: string :: u == root + "/" + rest
  {
    if root + "/" <= u {
      assert u == root + "/" + u[|root| + 1..];
    }
  }

  /** A reference worth queuing: in the tree, not seen, and not named before among the references. */
  predicate IsNews(root: string, refs: seq<string>, seen: set<string>, i: nat) {
    i < |refs| && InTree(root, refs[i]) && refs[i] !in seen && refs[i] !in refs[..i]
  }

  /** `at` is the places of the news, in order. */
  ghost predicate PlacesOfNews(root: string, refs: seq<string>, seen: set<string>, at: seq<nat>) {
    Ascending(at, |refs|) && forall i: nat :: i in at <==> IsNews(root, refs, seen, i)
  }

  lemma {:induction false} DiscoverAppends(root: string, refs: seq<string>, u: string, f: Frontier)
    ensures Discover(root, refs + [u], f) == See(root, u, Discover(root, refs, f))
    decreases |refs|
  {
    if refs == [] {
      assert ([] + [u])[1..] == [];
    } else {
      assert (refs + [u])[1..] == refs[1..] + [u];
      DiscoverAppends(root, refs[1..], u, See(root, refs[0], f));
    }
  }

  /** A page's references join the end of the queue in the order in which it first names them. */
  lemma {:induction false} DiscoversInOrder(root: string, refs: seq<string>, f: Frontier) returns (at: seq<nat>)
    ensures PlacesOfNews(root, refs, f.seen, at)
    ensures var g := Discover(root, refs, f);
      && g.queue == f.queue + seq(|at|, k requires 0 <= k < |at| => if at[k] < |refs| then refs[at[k]] else "")
      && forall u :: u in g.seen <==> u in f.seen || (InTree(root, u) && u in refs)
  {
    hide InTree;
    if refs == [] {
      at := [];
    } else {
      var before, u := refs[..|refs| - 1], refs[|refs| - 1];
      assert refs == before + [u];
      DiscoverAppends(root, before, u, f);
      var at0 := DiscoversInOrder(root, before, f);
      var n := |before|;
      at := at0 + if IsNews(root, refs, f.seen, n) then [n] else [];
      NewsGrow(root, before, u, f.seen, at0);
      hide Discover, PlacesOfNews, IsNews;
      assert forall k :: 0 <= k < |at0| ==> at0[k] < n && before[at0[k]] == refs[at0[k]];
    }
  }

  lemma NewsGrow(root: string, before: seq<string>, u: string, seen: set<string>, at: seq<nat>)
    requires PlacesOfNews(root, before, seen, at)
    ensures var refs := before + [u];
      && PlacesOfNews(root, refs, seen, at + if IsNews(root, refs, seen, |before|) then [|before|] else [])
      && (IsNews(root, refs, seen, |before|) <==> InTree(root, u) && u !in seen && u !in before)
      && forall k :: 0 <= k < |at| ==> at[k] < |before|
  {
    hide InTree;
    var refs := before + [u];
    assert refs[..|before|] == before;
    forall i: nat | i < |before| ensures IsNews(root, refs, seen, i) <==> IsNews(root, before, seen, i) {
      assert refs[..i] == before[..i] && refs[i] == before[i];
    }
  }

  lemma {:induction false} VisitedGrows(site: Site, root: string, maxPages: nat, skipStubs: bool, n: nat, m: nat)
    requires n <= m
    ensures After(site, root, maxPages, skipStubs, n).visited <= After(site, root, maxPages, skipStubs, m).visited
    decreases m
  {
    hide Turn, KeptOf;
    if n < m {
      VisitedGrows(site, root, maxPages, skipStubs, n, m - 1);
      var f := After(site, root, maxPages, skipStubs, m - 1);
      if Going(site, maxPages, skipStubs, f) {
        TurnAdvances(site, root, f);
      }
    }
  }

  /** `m` turns are enough to fetch `u`, unless the loop has stopped by then. */
  predicate FetchedBy(site: Site, root: string, maxPages: nat, skipStubs: bool, u: string, m: nat) {
    EndsBy(site, root, maxPages, skipStubs, m) || u in After(site, root, maxPages, skipStubs, m).visited
  }

  /** No page waits in the queue for ever: it is fetched after as many turns as there are pages before it. */
  lemma {:induction false} QueuedIsFetched(site: Site, root: string, maxPages: nat, skipStubs: bool, n: nat, i: nat)
    requires i < |After(site, root, maxPages, skipStubs, n).queue|
    ensures FetchedBy(site, root, maxPages, skipStubs, After(site, root, maxPages, skipStubs, n).queue[i], n + i + 1)
    decreases i
  {
    hide Turn, KeptOf;
    var f := After(site, root, maxPages, skipStubs, n);
    if Going(site, maxPages, skipStubs, f) {
      TurnAdvances(site, root, f);
      if i > 0 {
        assert f.queue[1..][i - 1] == f.queue[i];
        QueuedIsFetched(site, root, maxPages, skipStubs, n + 1, i - 1);
      }
    } else {
      Stopped(site, root, maxPages, skipStubs, n, n + i + 1);
    }
  }

  /** Every page on a path from the root is fetched in the end, unless the loop stops first. */
  lemma {:induction false} PathIsFetched(site: Site, root: string, maxPages: nat, skipStubs: bool, path: seq<string>)
    returns (m: nat)
    requires IsPath(site, root, path)
    ensures FetchedBy(site, root, maxPages, skipStubs, path[|path| - 1], m)
    decreases |path|
  {
    hide Refers, After, Going;
    if |path| == 1 {
      OriginQueues(site, root, maxPages, skipStubs);
      QueuedIsFetched(site, root, maxPages, skipStubs, 0, 0);
      m := 1;
    } else {
      var shorter := path[..|path| - 1];
      var p, u := path[|path| - 2], path[|path| - 1];
      assert p == shorter[|shorter| - 1] && Refers(site, root, p, u);
      m := PathIsFetched(site, root, maxPages, skipStubs, shorter);
      var f := After(site, root, maxPages, skipStubs, m);
      if p in f.visited && u !in f.visited {
        AfterIsInvariant(site, root, maxPages, skipStubs, m);
        ReferredIsQueued(site, root, f, p, u);
        var i :| 0 <= i < |f.queue| && f.queue[i] == u;
        QueuedIsFetched(site, root, maxPages, skipStubs, m, i);
        m := m + i + 1;
      }
    }
  }

  lemma OriginQueues(site: Site, root: string, maxPages: nat, skipStubs: bool)
    ensures After(site, root, maxPages, skipStubs, 0).queue == [root]
  {
  }

  lemma ReferredIsQueued(site: Site, root: string, f: Frontier, p: string, u: string)
    requires Invariant(site, root, f) && p in f.visited && Refers(site, root, p, u) && u !in f.visited
    ensures u in f.queue
  {
    hide Refers;
    assert Followed(site, root, p, f.level);
    InSeen(site, root, f, u);
  }

  /** Finitely many reachable pages are all fetched in the end, unless the loop stops first. */
  lemma {:induction false} AllAreFetched(site: Site, root: string, maxPages: nat, skipStubs: bool, some: set<string>)
    returns (m: nat)
    requires forall u <- some :: Reachable(site, root, u)
    ensures forall u <- some :: FetchedBy(site, root, maxPages, skipStubs, u, m)
    decreases |some|
  {
    hide IsPath, Reachable, FetchedBy;
    if some == {} {
      m := 0;
    } else {
      var u :| u in some;
      var a := AllAreFetched(site, root, maxPages, skipStubs, some - {u});
      var b := ReachableIsFetched(site, root, maxPages, skipStubs, u);
      m := a + b;
      forall v <- some ensures FetchedBy(site, root, maxPages, skipStubs, v, m) {
        StaysFetched(site, root, maxPages, skipStubs, v, if v == u then b else a, m);
      }
    }
  }

  lemma ReachableIsFetched(site: Site, root: string, maxPages: nat, skipStubs: bool, u: string) returns (m: nat)
    requires Reachable(site, root, u)
    ensures FetchedBy(site, root, maxPages, skipStubs, u, m)
  {
    var n: nat :| At(site, root, u, n);
    var path: seq<string> :| IsPath(site, root, path) && |path| == n + 1 && path[n] == u;
    m := PathIsFetched(site, root, maxPages, skipStubs, path);
  }

  lemma StaysFetched(site: Site, root: string, maxPages: nat, skipStubs: bool, u: string, n: nat, m: nat)
    requires FetchedBy(site, root, maxPages, skipStubs, u, n) && n <= m
    ensures FetchedBy(site, root, maxPages, skipStubs, u, m)
  {
    hide After, EndsBy;
    VisitedGrows(site, root, maxPages, skipStubs, n, m);
    if EndsBy(site, root, maxPages, skipStubs, n) {
      Stopped(site, root, maxPages, skipStubs, n, m);
    }
  }

  /** Enough pages worth keeping end the crawl: all of them are fetched, and then the cap is reached. */
  lemma EnoughKeptEnds(site: Site, root: string, maxPages: nat, skipStubs: bool) returns (n: nat)
    requires EnoughKept(site, root, maxPages, skipStubs)
    ensures EndsBy(site, root, maxPages, skipStubs, n)
  {
    hide Reachable, After, KeptAt, KeptOf;
    var some: set<string> :| AllKept(site, root, skipStubs, some) && |some| >= maxPages;
    n := AllAreFetched(site, root, maxPages, skipStubs, some);
    if !EndsBy(site, root, maxPages, skipStubs, n) {
      var visited := After(site, root, maxPages, skipStubs, n).visited;
      KeptOfIs(site, skipStubs, visited);
      forall u <- some ensures u in KeptOf(site, skipStubs, visited) {
        assert FetchedBy(site, root, maxPages, skipStubs, u, n);
      }
      FitsIn(some, KeptOf(site, skipStubs, visited));
    }
  }

  /** Where the loop stops, it has run out of pages or kept enough of them. */
  lemma EndMeans(site: Site, root: string, maxPages: nat, skipStubs: bool, n: nat)
    requires EndsBy(site, root, maxPages, skipStubs, n)
    ensures FinitelyMany(site, root) || EnoughKept(site, root, maxPages, skipStubs)
  {
    hide Reachable, After, KeptAt, KeptOf, Invariant, NoFurther;
    var f := After(site, root, maxPages, skipStubs, n);
    AfterIsInvariant(site, root, maxPages, skipStubs, n);
    Finish(site, root, f);
    if f.queue == [] {
      assert HoldsReachable(site, root, f.seen);
    } else {
      var kept := KeptOf(site, skipStubs, f.visited);
      KeptOfIs(site, skipStubs, f.visited);
      VisitedIsSeen(site, root, f);
      var some := set u | u in kept;
      UniqueSize(kept, some);
      assert AllKept(site, root, skipStubs, some);
    }
  }

  /**
   The crawl ends if and only if only finitely many pages can be reached, or enough of those are worth keeping
   to reach the cap. Breadth first is what makes the second half sufficient: whatever the site, every reachable
   page is fetched in the end.
   */
  lemma EndsIff(site: Site, root: string, maxPages: nat, skipStubs: bool)
    ensures (exists n: nat :: EndsBy(site, root, maxPages, skipStubs, n))
       <==> FinitelyMany(site, root) || EnoughKept(site, root, maxPages, skipStubs)
  {
    hide EndsBy, EnoughKept, Reachable, KeptAt;
    if n: nat :| EndsBy(site, root, maxPages, skipStubs, n) {
      EndMeans(site, root, maxPages, skipStubs, n);
    }
    if FinitelyMany(site, root) {
      var all: set<string> :| HoldsReachable(site, root, all);
      FiniteIdleEnds(site, root, maxPages, skipStubs, all);
    }
    if EnoughKept(site, root, maxPages, skipStubs) {
      var n := EnoughKeptEnds(site, root, maxPages, skipStubs);
    }
  }

  // ----- the crawl

  /** Follow one page's references: unseen in-tree ones are seen and queued, in order. */
  method Follow(root: string, refs: seq<string>, ghost f: Frontier, queue0: seq<string>, seen0: set<string>)
    returns (queue: seq<string>, seen: set<string>)
    requires f.queue == queue0 && f.seen == seen0
    ensures queue == Discover(root, refs, f).queue && seen == Discover(root, refs, f).seen
  {
    queue, seen := queue0, seen0;
    ghost var g := f;
    assert refs[0..] == refs;
    for i := 0 to |refs|
      invariant queue == g.queue && seen == g.seen
      invariant Discover(root, refs[i..], g) == Discover(root, refs, f)
    {
      var u := refs[i];
      assert refs[i..][0] == u && refs[i..][1..] == refs[i + 1..];
      g := See(root, u, g);
      if InTree(root, u) && u !in seen {
        seen := seen + {u};
        queue := queue + [u];
      }
    }
  }

  lemma BeforeTheLoop(site: Site, root: string, maxPages: nat, skipStubs: bool)
    ensures After(site, root, maxPages, skipStubs, 0) == Origin(root)
    ensures KeptOf(site, skipStubs, []) == [] && Missing(site, []) == 0
    ensures TooShort(site, []) == {} && Stubs(site, []) == {}
  {
  }

  lemma OneTurn(site: Site, root: string, maxPages: nat, skipStubs: bool, n: nat, k: nat)
    requires EndsBy(site, root, maxPages, skipStubs, n) && k <= n
    requires Going(site, maxPages, skipStubs, After(site, root, maxPages, skipStubs, k))
    ensures var f := After(site, root, maxPages, skipStubs, k);
      && k < n && After(site, root, maxPages, skipStubs, k + 1) == Turn(site, root, f)
      && Turn(site, root, f)
         == if site(f.queue[0]).None? then Fetched(f) else Discover(root, site(f.queue[0]).value.refs, Fetched(f))
  {
    hide Discover, KeptOf;
  }

  /**
   `n` is a number of turns after which the loop has stopped: a crawl that never stops has no result to
   speak of. `visited` is the fetches in order: no page is fetched twice, and nearer pages are fetched first.
   When `exhausted`, `seen` is exactly what is reachable, whatever the cap and whether or not stubs are kept.
   */
  method CrawlFramework(site: Site, root: string, maxPages: nat, skipStubs: bool, ghost n: nat)
    returns (pages: seq<string>, stats: Stats, seen: set<string>, ghost visited: seq<string>)
    requires EndsBy(site, root, maxPages, skipStubs, n)
    ensures Unique(visited) && |visited| == stats.fetched
    ensures forall i, j :: 0 <= i < j < |visited| ==> NoFurther(site, root, visited[i], visited[j])
    ensures stats.fetched + stats.queueRemaining == stats.discovered == |seen|
    ensures forall u <- seen :: Reachable(site, root, u)
    ensures stats.exhausted <==> stats.queueRemaining == 0
    ensures stats.exhausted ==> forall u :: u in seen <==> Reachable(site, root, u)
    ensures stats.sizeEstimate == if stats.exhausted then Some(|seen|) else None
    ensures !stats.exhausted ==> |pages| == maxPages
    ensures |pages| <= maxPages && stats.pagesKept == |pages|
    ensures pages == KeptOf(site, skipStubs, visited)
    ensures stats.fetched == Missing(site, visited) + stats.tooShort + stats.stubsDropped + stats.pagesKept
    ensures stats.tooShort == |TooShort(site, visited)|
    ensures stats.stubsDropped == if skipStubs then |Stubs(site, visited)| else 0
  {
    hide Invariant, Discover, NoFurther, Reachable, Unique, After, EndsBy, Turn, KeptOf, Missing, InTree;
    hide TooShort, Stubs;
    seen := {root};
    var queue := [root];
    pages := [];
    var fetched, empty, stubs := 0, 0, 0;
    ghost var f, k := Origin(root), 0;
    OriginIsInvariant(site, root);
    BeforeTheLoop(site, root, maxPages, skipStubs);
    while queue != [] && |pages| < maxPages
      invariant k <= n && f == After(site, root, maxPages, skipStubs, k) && Invariant(site, root, f)
      invariant queue == f.queue && seen == f.seen
      invariant fetched == |f.visited| && |pages| <= maxPages
      invariant pages == KeptOf(site, skipStubs, f.visited)
      invariant fetched == Missing(site, f.visited) + empty + stubs + |pages|
      invariant empty == |TooShort(site, f.visited)| && stubs == if skipStubs then |Stubs(site, f.visited)| else 0
      decreases n - k
    {
      var path := queue[0];
      TurnKeepsInvariant(site, root, f);
      OneTurn(site, root, maxPages, skipStubs, n, k);
      Visit(site, skipStubs, f.visited, path);
      OneMoreTooShort(site, f.visited, path);
      OneMoreStub(site, f.visited, path);
      k := k + 1;
      f := Fetched(f);
      queue := queue[1..];
      fetched := fetched + 1;
      var doc := site(path);
      if doc.None? {
        continue;
      }
      var page := doc.value;
      if page.textLength <= 40 {
        empty := empty + 1;
      } else if skipStubs && !page.hasProse {
        stubs := stubs + 1;
      } else {
        pages := pages + [path];
      }
      queue, seen := Follow(root, page.refs, f, queue, seen);
      f := Discover(root, page.refs, f);
    }
    Finish(site, root, f);
    visited := f.visited;
    var exhausted := queue == [];
    var estimate := if exhausted then Some(|seen|) else None;
    stats := Stats(|pages|, fetched, |seen|, |queue|, empty, stubs, exhausted, estimate);
  }
}
