/**
 What an allocation comes to in terms of the files, the window and the knobs: one walk over all the files in
 priority order where the window is known, each section by its own knob where it is not.
 */
module PromptBudgetLaws {
  import opened Options
  import opened PromptBudget

  // ----- what is withheld

  /** Of a joined list, what each half shows. */
  lemma {:induction false} ShownIsFilter(cfg: Config, a: seq<File>, b: seq<File>)
    ensures Shown(cfg, a + b) == Shown(cfg, a) + Shown(cfg, b)
  {
    if a == [] {
      assert a + b == b;
    } else {
      assert (a + b)[1..] == a[1..] + b && (a + b)[0] == a[0];
      ShownIsFilter(cfg, a[1..], b);
      Regroup(if cfg.generated(a[0].path) then [] else [a[0]], Shown(cfg, a[1..]), Shown(cfg, b));
    }
  }

  /** Of one file, whether it is shown. */
  lemma ShownOne(cfg: Config, f: File)
    ensures Shown(cfg, [f]) == if cfg.generated(f.path) then [] else [f]
  {
    assert [f][1..] == [] && Shown(cfg, []) == [];
  }

  lemma {:induction false} HiddenIff(cfg: Config, files: seq<File>, path: string)
    ensures path in Hidden(cfg, files) <==> path in Paths(files) && cfg.generated(path)
  {
    if files != [] {
      HiddenIff(cfg, files[1..], path);
    }
  }

  // ----- one walk over all the files

  /** All the files that may be shown, section after section. */
  function FilesOf(ss: seq<Section>): seq<File> {
    if ss == [] then [] else ss[0].files + FilesOf(ss[1..])
  }

  /** What the sections of a plan keep, one after another, and what they drop. */
  function KeptIn(ss: seq<Section>, p: Plan): seq<File> {
    if ss == [] then [] else p.Kept(ss[0].name) + KeptIn(ss[1..], p)
  }

  function DroppedIn(ss: seq<Section>, p: Plan): seq<string> {
    if ss == [] then [] else p.Dropped(ss[0].name) + DroppedIn(ss[1..], p)
  }

  /** A fill of two lists is a fill of the first, and then of the second with what is left. */
  lemma {:induction false} GreedyOfBoth(a: seq<File>, b: seq<File>, left: nat)
    ensures TotalChars(Greedy(a, left).0) <= left
    ensures Greedy(a + b, left) == Joined(Greedy(a, left), Greedy(b, left - TotalChars(Greedy(a, left).0)))
  {
    GreedyWithinBudget(a, left);
    if a == [] {
      assert a + b == b;
      EmptyWalk(left);
      var rest := Greedy(b, left);
      assert TotalChars(Greedy(a, left).0) == 0 && [] + rest.0 == rest.0 && [] + rest.1 == rest.1;
      assert Joined(Greedy(a, left), rest) == rest;
    } else {
      var head, tail := a[0], a[1..];
      assert (a + b)[1..] == tail + b && (a + b)[0] == head;
      var rest: nat := if |head.content| > left then left else left - |head.content|;
      GreedyOfBoth(tail, b, rest);
      GreedyHead(a, left);
      GreedyHead(a + b, left);
      hide Greedy, TotalChars;
      HeadJoins(head, |head.content| <= left, Greedy(tail, rest), Greedy(b, rest - TotalChars(Greedy(tail, rest).0)));
    }
  }

  function Joined(x: (seq<File>, seq<string>), y: (seq<File>, seq<string>)): (seq<File>, seq<string>) {
    (x.0 + y.0, x.1 + y.1)
  }

  function WithHead(head: File, kept: bool, x: (seq<File>, seq<string>)): (seq<File>, seq<string>) {
    if kept then ([head] + x.0, x.1) else (x.0, [head.path] + x.1)
  }

  lemma GreedyHead(files: seq<File>, left: nat)
    requires files != []
    ensures var rest: nat := if |files[0].content| > left then left else left - |files[0].content|;
      && Greedy(files, left) == WithHead(files[0], |files[0].content| <= left, Greedy(files[1..], rest))
      && left - TotalChars(Greedy(files, left).0) == rest - TotalChars(Greedy(files[1..], rest).0)
  {
    if |files[0].content| <= left {
      var kept := Greedy(files[1..], left - |files[0].content|).0;
      assert ([files[0]] + kept)[1..] == kept;
    }
  }

  lemma HeadJoins(head: File, kept: bool, x: (seq<File>, seq<string>), y: (seq<File>, seq<string>))
    ensures WithHead(head, kept, Joined(x, y)) == Joined(WithHead(head, kept, x), y)
  {
    assert [head] + (x.0 + y.0) == ([head] + x.0) + y.0;
    assert [head.path] + (x.1 + y.1) == ([head.path] + x.1) + y.1;
  }

  /** A plan that holds a dict. */
  function Holding(d: Grants): Plan {
    Plan(None, None, 0, 0, 0, d)
  }

  lemma {:induction false} PlainIsOneWalk(ss: seq<Section>, left: nat, d: Grants)
    requires Distinct(ss)
    ensures var p := Holding(Spread(ss, map[], false, left, d).0);
      (KeptIn(ss, p), DroppedIn(ss, p)) == Greedy(FilesOf(ss), left)
  {
    hide SpreadGrant, TotalChars, Greedy;
    if ss == [] {
      EmptyWalk(left);
    } else {
      var head, tail := ss[0], ss[1..];
      var g := SpreadGrant(head, map[], false, left);
      SpreadHead(ss, map[], false, left, d);
      GreedyOfBoth(head.files, FilesOf(tail), left);
      PlainIsOneWalk(tail, left - g.Chars(), d.Put(head.name, g));
      SpreadFrame(tail, map[], false, left - g.Chars(), d.Put(head.name, g), head.name);
    }
  }

  lemma EmptyWalk(left: nat)
    ensures Greedy([], left) == ([], [])
  {
  }

  lemma {:induction false} SameWalk(ss: seq<Section>, d: Grants, e: Grants)
    requires Has(d, ss) && Has(e, ss) && SameDecisions(ss, d, e)
    ensures KeptIn(ss, Holding(d)) == KeptIn(ss, Holding(e)) && DroppedIn(ss, Holding(d)) == DroppedIn(ss, Holding(e))
  {
    if ss != [] {
      SameWalk(ss[1..], d, e);
    }
  }

  lemma {:induction false} WalkOfPlan(ss: seq<Section>, p: Plan)
    ensures KeptIn(ss, p) == KeptIn(ss, Holding(p.sections))
    ensures DroppedIn(ss, p) == DroppedIn(ss, Holding(p.sections))
  {
    if ss != [] {
      WalkOfPlan(ss[1..], p);
    }
  }

  /** The characters a known window leaves: its share, less the completion, in characters, less the fixed part once. */
  function Left(cfg: Config, window: int, completion: int, fixed: nat): nat {
    var chars := (cfg.cap(window) - completion) * cfg.charsPerToken;
    if fixed <= chars then chars - fixed else 0
  }

  /**
   With a known window the three passes keep, and drop, exactly what one walk over all the files in priority
   order does, taking each file that still fits in what the window leaves.
   */
  lemma KnownWindowIsOneWalk(cfg: Config, sections: seq<Section>, fixed: nat, window: int, completion: int,
                             agent: Option<string>)
    requires Distinct(sections)
    ensures var p, ss := AllocationPlan(cfg, sections, fixed, Some(window), completion, agent),
                         WithholdAll(cfg, sections);
      && p.budget == Left(cfg, window, completion, fixed)
      && (KeptIn(ss, p), DroppedIn(ss, p)) == Greedy(FilesOf(ss), Left(cfg, window, completion, fixed))
  {
    var p, ss := AllocationPlan(cfg, sections, fixed, Some(window), completion, agent), WithholdAll(cfg, sections);
    var budget := Left(cfg, window, completion, fixed);
    WithholdKeepsNames(cfg, sections);
    KnownWindowIsPlain(cfg, sections, budget);
    hide KnownWindowGrants;
    SameWalk(ss, p.sections, PlainFill(ss, budget));
    WalkOfPlan(ss, p);
    PlainIsOneWalk(ss, budget, NO_GRANTS);
  }

  /** With an unknown window every section is filled to its own knob, or holds everything where it has none. */
  lemma UnknownWindowAt(cfg: Config, sections: seq<Section>, fixed: nat, completion: int, agent: Option<string>,
                        i: nat)
    requires Distinct(sections) && i < |sections|
    ensures var p, s := AllocationPlan(cfg, sections, fixed, None, completion, agent), Withhold(cfg, sections[i]);
      && p.budget == -1
      && (s.preferred.None? ==> p.Kept(s.name) == s.files && p.Dropped(s.name) == [])
      && (s.preferred.Some? && s.preferred.value >= 0 ==>
            (p.Kept(s.name), p.Dropped(s.name)) == Greedy(s.files, s.preferred.value))
      && (s.preferred.Some? && s.preferred.value < 0 ==>
            (p.Kept(s.name), p.Dropped(s.name)) == Greedy(s.files, 0))
  {
    var ss, s := WithholdAll(cfg, sections), Withhold(cfg, sections[i]);
    WithholdKeepsNames(cfg, sections);
    UnboundedAt(ss, WithheldPaths(cfg, sections), NO_GRANTS, i);
    GreedyDropsNothingIff(s.files, TotalChars(s.files));
  }

  // ----- what the dict records beside the files

  /** The records of a section: what it withheld, its knob, and the number of characters its fill was given. */
  predicate Recorded(d: Grants, s: Section, withheld: map<string, seq<string>>) {
    && s.name in d.at && d.at[s.name].withheld == WithheldAt(withheld, s.name)
    && d.at[s.name].preferred == s.preferred && FilledAt(s, d.at[s.name], d.at[s.name].budget)
  }

  predicate AllRecorded(ss: seq<Section>, d: Grants, withheld: map<string, seq<string>>) {
    forall i :: 0 <= i < |ss| ==> Recorded(d, ss[i], withheld)
  }

  lemma {:induction false} SpreadRecords(ss: seq<Section>, withheld: map<string, seq<string>>, knobs: bool, left: nat,
                                         d: Grants)
    requires Distinct(ss)
    ensures AllRecorded(ss, Spread(ss, withheld, knobs, left, d).0, withheld)
  {
    if ss != [] {
      var g := SpreadGrant(ss[0], withheld, knobs, left);
      var rest: nat := Max(0, left - g.Chars());
      SpreadHead(ss, withheld, knobs, left, d);
      assert Recorded(d.Put(ss[0].name, g), ss[0], withheld);
      hide SpreadGrant, Greedy, TotalChars;
      SpreadRecords(ss[1..], withheld, knobs, rest, d.Put(ss[0].name, g));
      SpreadFrame(ss[1..], withheld, knobs, rest, d.Put(ss[0].name, g), ss[0].name);
      HeadAndTail(ss, Spread(ss, withheld, knobs, left, d).0, withheld);
    }
  }

  lemma HeadAndTail(ss: seq<Section>, d: Grants, withheld: map<string, seq<string>>)
    requires ss != [] && Recorded(d, ss[0], withheld) && AllRecorded(ss[1..], d, withheld)
    ensures AllRecorded(ss, d, withheld)
  {
    hide Recorded;
    forall i | 0 <= i < |ss| ensures Recorded(d, ss[i], withheld) {
      if i > 0 {
        assert ss[1..][i - 1] == ss[i];
      }
    }
  }

  lemma {:induction false} NotNamedAt(name: string, ss: seq<Section>, i: nat)
    requires NotNamed(name, ss) && i < |ss|
    ensures ss[i].name != name
  {
    if i > 0 {
      NotNamedAt(name, ss[1..], i - 1);
    }
  }

  lemma PutElsewhere(ss: seq<Section>, d: Grants, withheld: map<string, seq<string>>, name: string, g: SectionBudget)
    requires AllRecorded(ss, d, withheld) && NotNamed(name, ss)
    ensures AllRecorded(ss, d.Put(name, g), withheld)
  {
    forall i | 0 <= i < |ss| ensures Recorded(d.Put(name, g), ss[i], withheld) {
      assert Recorded(d, ss[i], withheld);
      NotNamedAt(name, ss, i);
    }
  }

  lemma {:induction false} RefillRecords(ss: seq<Section>, withheld: map<string, seq<string>>, left: nat, d: Grants)
    requires Distinct(ss) && Has(d, ss) && AllRecorded(ss, d, withheld)
    ensures AllRecorded(ss, Refill(ss, left, d).0, withheld)
  {
    if ss != [] {
      var got := d.at[ss[0].name];
      var grown := RefillGrant(ss[0], got, left);
      assert Recorded(d, ss[0], withheld);
      assert Recorded(d.Put(ss[0].name, grown), ss[0], withheld);
      hide RefillGrant, Unchanged, Greedy, TotalChars, Recorded;
      assert forall i :: 0 <= i < |ss[1..]| ==> ss[1..][i] == ss[i + 1];
      if Unchanged(ss[0], got, left) {
        RefillRecords(ss[1..], withheld, left, d);
        RefillFrame(ss[1..], left, d, ss[0].name);
      } else {
        var d1, left1 := d.Put(ss[0].name, grown), Max(0, left - (grown.Chars() - got.Chars()));
        HasMonotone(d, d1, ss[1..]);
        PutElsewhere(ss[1..], d, withheld, ss[0].name, grown);
        RefillRecords(ss[1..], withheld, left1, d1);
        RefillFrame(ss[1..], left1, d1, ss[0].name);
      }
      RecordedAlike(d, d.Put(ss[0].name, grown), Refill(ss, left, d).0, ss[0], withheld);
      HeadAndTail(ss, Refill(ss, left, d).0, withheld);
    }
  }

  lemma RecordedAlike(d: Grants, d1: Grants, d': Grants, s: Section, withheld: map<string, seq<string>>)
    requires Recorded(d, s, withheld) && Recorded(d1, s, withheld) && s.name in d'.at
    requires d'.at[s.name] == d.at[s.name] || d'.at[s.name] == d1.at[s.name]
    ensures Recorded(d', s, withheld)
  {
  }

  lemma {:induction false} UnboundedRecords(ss: seq<Section>, withheld: map<string, seq<string>>, d: Grants)
    requires Distinct(ss)
    ensures AllRecorded(ss, Unbounded(ss, withheld, d), withheld)
  {
    if ss != [] {
      var g := Granted(ss[0], ss[0].preferred.GetOr(ss[0].WantedChars()), WithheldAt(withheld, ss[0].name));
      UnboundedFills(ss[1..], withheld, d.Put(ss[0].name, g));
      UnboundedRecords(ss[1..], withheld, d.Put(ss[0].name, g));
      assert Recorded(Unbounded(ss, withheld, d), ss[0], withheld);
      HeadAndTail(ss, Unbounded(ss, withheld, d), withheld);
    }
  }

  lemma {:induction false} WithheldPathsAt(cfg: Config, ss: seq<Section>, i: nat)
    requires i < |ss| && forall j :: i < j < |ss| ==> ss[j].name != ss[i].name
    ensures ss[i].name in WithheldPaths(cfg, ss) && WithheldPaths(cfg, ss)[ss[i].name]
         == if ss[i].name == SECTION_PROTECTED then Hidden(cfg, ss[i].files) else []
    decreases |ss|
  {
    if i < |ss| - 1 {
      assert forall j :: i < j < |ss| - 1 ==> ss[..|ss| - 1][j] == ss[j];
      WithheldPathsAt(cfg, ss[..|ss| - 1], i);
    }
  }

  lemma {:induction false} DistinctAt(ss: seq<Section>, i: nat, j: nat)
    requires Distinct(ss) && i < j < |ss|
    ensures ss[i].name != ss[j].name
  {
    if i == 0 {
      NotNamedAt(ss[0].name, ss[1..], j - 1);
    } else {
      DistinctAt(ss[1..], i - 1, j - 1);
    }
  }

  /** The dict of a plan. */
  lemma PlanRecords(cfg: Config, sections: seq<Section>, fixed: nat, window: Option<int>, completion: int,
                    agent: Option<string>)
    requires Distinct(sections)
    ensures AllRecorded(WithholdAll(cfg, sections),
                        AllocationPlan(cfg, sections, fixed, window, completion, agent).sections,
                        WithheldPaths(cfg, sections))
  {
    hide Spread, Refill, PriorityInverted, Recorded, AllRecorded, Unbounded, WithheldPaths;
    var ss, withheld := WithholdAll(cfg, sections), WithheldPaths(cfg, sections);
    WithholdKeepsNames(cfg, sections);
    if window.None? {
      UnboundedRecords(ss, withheld, NO_GRANTS);
    } else {
      var budget := Room(cfg, window.value, completion, fixed);
      SpreadRecords(ss, withheld, true, budget, NO_GRANTS);
      SpreadKeys(ss, withheld, true, budget, NO_GRANTS);
      var (d1, left1) := Spread(ss, withheld, true, budget, NO_GRANTS);
      RefillRecords(ss, withheld, left1, d1);
      SpreadRecords(ss, withheld, false, budget, Refill(ss, left1, d1).0);
    }
  }

  /**
   What the plan says of a section is true: the paths it names as withheld are exactly the machine-generated ones
   of the protected section, what it kept and dropped is a fill of the number of characters it names, and every
   path is kept, dropped by name or withheld by name.
   */
  lemma SectionIsAccountedFor(cfg: Config, sections: seq<Section>, fixed: nat, window: Option<int>, completion: int,
                              agent: Option<string>, i: nat)
    requires Distinct(sections) && i < |sections|
    ensures var p, s := AllocationPlan(cfg, sections, fixed, window, completion, agent), sections[i];
      s.name in p.sections.at &&
      var got := p.sections.at[s.name];
      && got.preferred == s.preferred
      && (got.kept, got.dropped) == Greedy(Withhold(cfg, s).files, got.budget)
      && multiset(Paths(s.files)) == multiset(Paths(got.kept)) + multiset(got.dropped) + multiset(got.withheld)
      && forall path :: path in got.withheld
           <==> s.name == SECTION_PROTECTED && cfg.generated(path) && path in Paths(s.files)
  {
    var s, ss := sections[i], WithholdAll(cfg, sections);
    var p := AllocationPlan(cfg, sections, fixed, window, completion, agent);
    PlanRecords(cfg, sections, fixed, window, completion, agent);
    hide AllocationPlan;
    assert Recorded(p.sections, ss[i], WithheldPaths(cfg, sections));
    forall j | i < j < |sections| ensures sections[j].name != s.name {
      DistinctAt(sections, i, j);
    }
    WithheldPathsAt(cfg, sections, i);
    GreedyConserves(ss[i].files, p.sections.at[s.name].budget);
    WithholdConserves(cfg, s.files);
    forall path ensures path in Hidden(cfg, s.files) <==> path in Paths(s.files) && cfg.generated(path) {
      HiddenIff(cfg, s.files, path);
    }
  }

  // ----- the size of the prompt

  /** The characters the sections of a plan keep. */
  function CharsKept(sections: seq<Section>, p: Plan): nat {
    if sections == [] then 0 else TotalChars(p.Kept(sections[0].name)) + CharsKept(sections[1..], p)
  }

  lemma {:induction false} KeptIsUsed(ss: seq<Section>, sections: seq<Section>, p: Plan)
    requires Has(p.sections, ss) && |ss| == |sections|
    requires forall i :: 0 <= i < |ss| ==> ss[i].name == sections[i].name
    ensures CharsKept(sections, p) == Used(ss, p.sections)
  {
    if ss != [] {
      KeptIsUsed(ss[1..], sections[1..], p);
    }
  }

  lemma {:induction false} UnboundedOrder(ss: seq<Section>, withheld: map<string, seq<string>>, d: Grants)
    requires Distinct(ss) && NoneIn(ss, d)
    ensures Unbounded(ss, withheld, d).order == d.order + Names(ss)
  {
    hide Granted, NotNamed, TotalChars, WithheldAt;
    if ss == [] {
      assert d.order + [] == d.order;
    } else {
      var g := Granted(ss[0], ss[0].preferred.GetOr(ss[0].WantedChars()), WithheldAt(withheld, ss[0].name));
      NoneInAfterPut(ss[1..], d, ss[0].name, g);
      UnboundedOrder(ss[1..], withheld, d.Put(ss[0].name, g));
      Regroup(d.order, [ss[0].name], Names(ss[1..]));
    }
  }

  lemma {:induction false} NamesAre(ss: seq<Section>)
    ensures |Names(ss)| == |ss| && forall i :: 0 <= i < |ss| ==> Names(ss)[i] == ss[i].name
  {
    if ss != [] {
      NamesAre(ss[1..]);
    }
  }

  lemma PlanOrder(cfg: Config, sections: seq<Section>, fixed: nat, window: Option<int>, completion: int,
                  agent: Option<string>)
    requires Distinct(sections)
    ensures var p, ss := AllocationPlan(cfg, sections, fixed, window, completion, agent), WithholdAll(cfg, sections);
      p.sections.order == Names(ss) && Has(p.sections, ss)
  {
    hide Spread, Refill, PriorityInverted, Unbounded, WithheldPaths;
    var ss, withheld := WithholdAll(cfg, sections), WithheldPaths(cfg, sections);
    WithholdKeepsNames(cfg, sections);
    NoneInEmpty(ss);
    assert NO_GRANTS.order + Names(ss) == Names(ss);
    if window.None? {
      UnboundedOrder(ss, withheld, NO_GRANTS);
      UnboundedFills(ss, withheld, NO_GRANTS);
    } else {
      var budget := Room(cfg, window.value, completion, fixed);
      SpreadOrder(ss, withheld, true, budget, NO_GRANTS);
      SpreadKeys(ss, withheld, true, budget, NO_GRANTS);
      var (d1, left1) := Spread(ss, withheld, true, budget, NO_GRANTS);
      RefillKeepsOrder(ss, left1, d1);
      RefillKeys(ss, left1, d1);
      SpreadKeys(ss, withheld, false, budget, Refill(ss, left1, d1).0);
      SpreadKeepsOrder(ss, withheld, false, budget, Refill(ss, left1, d1).0);
    }
  }

  /** So many characters are so many whole tokens and less than one more. */
  predicate WholeTokens(tokens: nat, chars: nat, charsPerToken: Positive) {
    tokens * charsPerToken <= chars < (tokens + 1) * charsPerToken
  }

  /** The dict lists the sections in order, and the prompt's tokens are those of the fixed part and what is kept. */
  lemma PromptTokensAre(cfg: Config, sections: seq<Section>, fixed: nat, window: Option<int>, completion: int,
                        agent: Option<string>)
    requires Distinct(sections)
    ensures var p := AllocationPlan(cfg, sections, fixed, window, completion, agent);
      && |p.sections.order| == |sections|
      && (forall i :: 0 <= i < |sections| ==> p.sections.order[i] == sections[i].name)
      && WholeTokens(p.PromptTokens(cfg), fixed + CharsKept(sections, p), cfg.charsPerToken)
  {
    hide AllocationPlan, TotalChars, Plan.PromptTokens, WithholdAll, WholeTokens, Distinct;
    var ss, p := WithholdAll(cfg, sections), AllocationPlan(cfg, sections, fixed, window, completion, agent);
    PlanOrder(cfg, sections, fixed, window, completion, agent);
    NamesAre(ss);
    TotalIsUsed(ss, p.sections);
    KeptIsUsed(ss, sections, p);
    TokensOf(p, cfg, CharsKept(sections, p));
  }

  lemma TokensOf(p: Plan, cfg: Config, chars: nat)
    requires p.sections.Total() == chars
    ensures WholeTokens(p.PromptTokens(cfg), p.fixed + chars, cfg.charsPerToken)
  {
    hide TotalOver, WholeTokens;
    QuotientIs(p.fixed + chars, cfg.charsPerToken);
  }

  lemma QuotientIs(x: nat, k: Positive)
    ensures WholeTokens(x / k, x, k)
  {
  }
}
