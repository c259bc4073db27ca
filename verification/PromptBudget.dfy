/**
 The prompt-budget allocator: the characters of a prompt, summed up, against what an agent's window
 takes. `Allocate` runs three greedy passes over prioritised sections; with a known window they
 come to one plain fill in priority order (`AllocationIsOnePlainFill`). Module `Dispatch` chooses the
 agent by the allocations its window would give.
 */
module PromptBudget {
  import opened Options

  const SECTION_EDITABLE := "editable"
  const SECTION_PROTECTED := "protected"

  type Positive = n: int | n >= 1 witness 1

  datatype File = File(path: string, content: string)

  datatype Section = Section(name: string, files: seq<File>, preferred: Option<int>) {
    function WantedChars(): nat {
      TotalChars(files)
    }
  }

  datatype SectionBudget = SectionBudget(
    kept: seq<File>, dropped: seq<string>, budget: nat, preferred: Option<int>, withheld: seq<string>)
  {
    function Chars(): nat {
      TotalChars(kept)
    }
  }

  /** A Python dict from section name to grant: keys in insertion order, and their values. */
  datatype Grants = Grants(order: seq<string>, at: map<string, SectionBudget>) {
    function Put(name: string, g: SectionBudget): Grants {
      Grants(if name in at then order else order + [name], at[name := g])
    }

    function Total(): nat {
      TotalOver(order, at)
    }
  }

  const NO_GRANTS := Grants([], map[])

  function TotalOver(names: seq<string>, at: map<string, SectionBudget>): nat {
    if names == [] then 0
    else (if names[0] in at then at[names[0]].Chars() else 0) + TotalOver(names[1..], at)
  }

  /** The operator's settings. `cap(w)` is the whole part of `w` times the headroom fraction. */
  datatype Config = Config(charsPerToken: Positive, cap: int -> int, generated: string -> bool)

  ghost predicate MonotoneCap(cfg: Config) {
    cfg.cap(0) == 0 && forall a: int, b: int :: a <= b ==> cfg.cap(a) <= cfg.cap(b)
  }

  /** One allocation, as a value. */
  datatype Plan = Plan(agent: Option<string>, window: Option<int>, completion: int, fixed: nat, budget: int,
                       sections: Grants)
  {
    function Dropped(name: string): seq<string> {
      if name in sections.at then sections.at[name].dropped else []
    }

    function Kept(name: string): seq<File> {
      if name in sections.at then sections.at[name].kept else []
    }

    predicate DroppedAny() {
      exists name <- sections.at :: sections.at[name].dropped != []
    }

    function PromptTokens(cfg: Config): nat {
      (fixed + sections.Total()) / cfg.charsPerToken
    }

    predicate Fits(cfg: Config) {
      window.None? || PromptTokens(cfg) + completion <= cfg.cap(window.value)
    }
  }

  function TotalChars(files: seq<File>): nat {
    if files == [] then 0 else |files[0].content| + TotalChars(files[1..])
  }

  // ----- the greedy fill of one section

  /** What a fill of `left` characters keeps, and the paths it drops, in candidate order. */
  function Greedy(files: seq<File>, left: nat): (seq<File>, seq<string>) {
    if files == [] then ([], [])
    else if |files[0].content| > left then
      var (kept, dropped) := Greedy(files[1..], left);
      (kept, [files[0].path] + dropped)
    else
      var (kept, dropped) := Greedy(files[1..], left - |files[0].content|);
      ([files[0]] + kept, dropped)
  }

  function Granted(section: Section, budget: int, withheld: seq<string>): SectionBudget {
    var (kept, dropped) := Greedy(section.files, Max(0, budget));
    SectionBudget(kept, dropped, Max(0, budget), section.preferred, withheld)
  }

  method Fill(section: Section, budget: int) returns (r: SectionBudget)
    ensures r == Granted(section, budget, [])
  {
    var kept: seq<File>, dropped: seq<string> := [], [];
    var left: nat := Max(0, budget);
    assert section.files[0..] == section.files;
    for i := 0 to |section.files|
      invariant Greedy(section.files, Max(0, budget)).0 == kept + Greedy(section.files[i..], left).0
      invariant Greedy(section.files, Max(0, budget)).1 == dropped + Greedy(section.files[i..], left).1
    {
      assert section.files[i..][0] == section.files[i] && section.files[i..][1..] == section.files[i + 1..];
      var file := section.files[i];
      var rest := section.files[i + 1..];
      assert kept + ([file] + Greedy(rest, Max(0, left - |file.content|)).0)
          == (kept + [file]) + Greedy(rest, Max(0, left - |file.content|)).0;
      assert dropped + ([file.path] + Greedy(rest, left).1) == (dropped + [file.path]) + Greedy(rest, left).1;
      if |file.content| > left {
        dropped := dropped + [file.path];
      } else {
        left := left - |file.content|;
        kept := kept + [file];
      }
    }
    r := SectionBudget(kept, dropped, Max(0, budget), section.preferred, []);
  }

  lemma {:induction false} TotalCharsConcat(a: seq<File>, b: seq<File>)
    ensures TotalChars(a + b) == TotalChars(a) + TotalChars(b)
  {
    if a == [] {
      assert a + b == b;
    } else {
      assert (a + b)[1..] == a[1..] + b;
      TotalCharsConcat(a[1..], b);
    }
  }

  lemma {:induction false} GreedyWithinBudget(files: seq<File>, left: nat)
    ensures TotalChars(Greedy(files, left).0) <= left
    ensures TotalChars(Greedy(files, left).0) <= TotalChars(files)
  {
    if files != [] {
      if |files[0].content| > left {
        GreedyWithinBudget(files[1..], left);
      } else {
        var rest := left - |files[0].content|;
        GreedyWithinBudget(files[1..], rest);
        assert ([files[0]] + Greedy(files[1..], rest).0)[1..] == Greedy(files[1..], rest).0;
      }
    }
  }

  /** Each file is decided by the room the files kept before it leave, and by nothing after it. */
  lemma {:induction false} GreedyKeepsWhatStillFits(files: seq<File>, left: nat, i: nat)
    requires i < |files|
    ensures var before := Greedy(files[..i], left);
            Greedy(files[..i + 1], left) ==
            if TotalChars(before.0) + |files[i].content| <= left
            then (before.0 + [files[i]], before.1)
            else (before.0, before.1 + [files[i].path])
  {
    var head := files[..i + 1];
    if i == 0 {
      assert files[..0] == [] && head == [files[0]] && head[1..] == [];
      var (none, gone) := Greedy(files[..0], left);
      assert none + [files[0]] == [files[0]] + none && gone + [files[0].path] == [files[0].path] + gone;
    } else {
      var room := if |files[0].content| > left then left else left - |files[0].content|;
      GreedyKeepsWhatStillFits(files[1..], room, i - 1);
      assert files[1..][..i] == head[1..] && files[1..][..i - 1] == files[..i][1..];
      var before := Greedy(files[..i][1..], room);
      if |files[0].content| <= left {
        assert ([files[0]] + before.0)[1..] == before.0;
        assert [files[0]] + (before.0 + [files[i]]) == ([files[0]] + before.0) + [files[i]];
      } else {
        assert [files[0].path] + (before.1 + [files[i].path]) == ([files[0].path] + before.1) + [files[i].path];
      }
    }
  }

  /** Where two budgets lead to different fills, the larger one spends more than the smaller had. */
  lemma {:induction false} GreedyDivergence(files: seq<File>, small: nat, large: nat)
    requires small <= large
    requires Greedy(files, small) != Greedy(files, large)
    ensures TotalChars(Greedy(files, large).0) > small
  {
    var size := |files[0].content|;
    if size > large {
      GreedyDivergence(files[1..], small, large);
    } else {
      TotalCharsConcat([files[0]], Greedy(files[1..], large - size).0);
      if size <= small {
        GreedyDivergence(files[1..], small - size, large - size);
      }
    }
  }

  /** More room never yields a smaller total, although the kept set itself is not monotone. */
  lemma GreedyTotalMonotone(files: seq<File>, small: nat, large: nat)
    requires small <= large
    ensures TotalChars(Greedy(files, small).0) <= TotalChars(Greedy(files, large).0)
  {
    if Greedy(files, small) != Greedy(files, large) {
      GreedyDivergence(files, small, large);
      GreedyWithinBudget(files, small);
    }
  }

  /** The kept set is not monotone: two more characters of room can evict the file that was kept. */
  lemma GreedyKeptSetNotMonotone()
    ensures var a, b := File("a", "xxx"), File("b", "x");
            Greedy([a, b], 1).0 == [b] && Greedy([a, b], 3).0 == [a]
  {
    var a, b := File("a", "xxx"), File("b", "x");
    assert [a, b][1..] == [b] && [b][1..] == [];
    assert Greedy([b], 1).0 == [b] + Greedy([], 0).0 == [b];
    assert Greedy([b], 0).0 == Greedy([], 0).0 == [];
    assert Greedy([a, b], 3).0 == [a] + Greedy([b], 0).0;
  }

  lemma {:induction false} GreedyDropsNothingIff(files: seq<File>, left: nat)
    ensures Greedy(files, left).1 == [] <==> TotalChars(files) <= left
    ensures Greedy(files, left).1 == [] ==> Greedy(files, left).0 == files
  {
    if files != [] {
      if |files[0].content| <= left {
        GreedyDropsNothingIff(files[1..], left - |files[0].content|);
      }
    }
  }

  function Paths(files: seq<File>): seq<string> {
    if files == [] then [] else [files[0].path] + Paths(files[1..])
  }

  /** Every path of the section is either kept or named as dropped, with its multiplicity. */
  lemma {:induction false} GreedyConserves(files: seq<File>, left: nat)
    ensures multiset(Paths(files)) ==
            multiset(Paths(Greedy(files, left).0)) + multiset(Greedy(files, left).1)
  {
    if files != [] {
      var head, tail := files[0], files[1..];
      assert Paths(files) == [head.path] + Paths(tail);
      if |head.content| > left {
        GreedyConserves(tail, left);
      } else {
        var rest := left - |head.content|;
        GreedyConserves(tail, rest);
        var kept := Greedy(tail, rest).0;
        assert ([head] + kept)[1..] == kept;
        assert Paths([head] + kept) == [head.path] + Paths(kept);
      }
    }
  }

  // ----- machine-generated files are withheld before anything is summed

  function Shown(cfg: Config, files: seq<File>): seq<File> {
    if files == [] then []
    else (if cfg.generated(files[0].path) then [] else [files[0]]) + Shown(cfg, files[1..])
  }

  function Hidden(cfg: Config, files: seq<File>): seq<string> {
    if files == [] then []
    else (if cfg.generated(files[0].path) then [files[0].path] else []) + Hidden(cfg, files[1..])
  }

  function Withhold(cfg: Config, s: Section): Section {
    if s.name != SECTION_PROTECTED then s else s.(files := Shown(cfg, s.files))
  }

  function WithholdAll(cfg: Config, ss: seq<Section>): (r: seq<Section>)
    ensures |r| == |ss|
    ensures forall i :: 0 <= i < |ss| ==> r[i] == Withhold(cfg, ss[i])
  {
    seq(|ss|, i requires 0 <= i < |ss| => Withhold(cfg, ss[i]))
  }

  /** The dict from section name to withheld paths; a repeated name keeps the last. */
  function WithheldPaths(cfg: Config, ss: seq<Section>): map<string, seq<string>> {
    if ss == [] then map[]
    else
      var s := ss[|ss| - 1];
      WithheldPaths(cfg, ss[..|ss| - 1])[s.name := if s.name == SECTION_PROTECTED then Hidden(cfg, s.files) else []]
  }

  // ----- the three passes, as functions of the dict built so far

  predicate Has(d: Grants, ss: seq<Section>) {
    ss == [] || (ss[0].name in d.at && Has(d, ss[1..]))
  }

  function NameSet(ss: seq<Section>): set<string> {
    if ss == [] then {} else {ss[0].name} + NameSet(ss[1..])
  }

  lemma {:induction false} HasMonotone(d: Grants, d': Grants, ss: seq<Section>)
    requires Has(d, ss) && d.at.Keys <= d'.at.Keys
    ensures Has(d', ss)
  {
    if ss != [] {
      HasMonotone(d, d', ss[1..]);
    }
  }

  function Share(s: Section, knobs: bool, left: nat): int {
    if knobs && s.preferred.Some? then Min(s.preferred.value, left) else left
  }

  /** The grant is what a greedy fill of `b` characters gives the section. */
  predicate FilledAt(s: Section, g: SectionBudget, b: nat) {
    (g.kept, g.dropped) == Greedy(s.files, b)
  }

  /** What passes one and three give a section out of what is left. */
  function SpreadGrant(s: Section, withheld: map<string, seq<string>>, knobs: bool, left: nat): (g: SectionBudget)
    ensures g.Chars() <= left && FilledAt(s, g, g.budget)
    ensures !knobs ==> g.budget == left
  {
    var g := Granted(s, Share(s, knobs, left), WithheldAt(withheld, s.name));
    GreedyWithinBudget(s.files, g.budget);
    g
  }

  /** What pass two would give a section: everything it used and everything still left. */
  function RefillGrant(s: Section, got: SectionBudget, left: nat): (g: SectionBudget)
    ensures g.Chars() <= got.Chars() + left && FilledAt(s, g, g.budget) && g.budget == got.Chars() + left
  {
    GreedyWithinBudget(s.files, got.Chars() + left);
    Granted(s, got.Chars() + left, got.withheld)
  }

  /** Pass two leaves a section alone when nothing was dropped, nothing is left, or nothing is gained. */
  predicate Unchanged(s: Section, got: SectionBudget, left: nat) {
    got.dropped == [] || left <= 0 || RefillGrant(s, got, left).Chars() <= got.Chars()
  }

  /** Pass one (with the sections' own knobs) and pass three (without). */
  function Spread(ss: seq<Section>, withheld: map<string, seq<string>>, knobs: bool, left: nat, d: Grants)
    : (Grants, nat)
  {
    if ss == [] then (d, left)
    else
      var g := SpreadGrant(ss[0], withheld, knobs, left);
      Spread(ss[1..], withheld, knobs, Max(0, left - g.Chars()), d.Put(ss[0].name, g))
  }

  function WithheldAt(withheld: map<string, seq<string>>, name: string): seq<string> {
    if name in withheld then withheld[name] else []
  }

  /** Pass two: what is left over is offered to every section that dropped something. */
  function Refill(ss: seq<Section>, left: nat, d: Grants): (Grants, nat)
    requires Has(d, ss)
  {
    if ss == [] then (d, left)
    else
      var got := d.at[ss[0].name];
      var grown := RefillGrant(ss[0], got, left);
      if Unchanged(ss[0], got, left) then Refill(ss[1..], left, d)
      else
        HasMonotone(d, d.Put(ss[0].name, grown), ss[1..]);
        Refill(ss[1..], Max(0, left - (grown.Chars() - got.Chars())), d.Put(ss[0].name, grown))
  }

  /** Some section has drops while a lower-priority one holds content it could yield. */
  predicate PriorityInverted(ss: seq<Section>, d: Grants)
    requires Has(d, ss)
  {
    if ss == [] then false
    else if d.at[ss[0].name].dropped == [] then PriorityInverted(ss[1..], d)
    else HoldsContent(ss[1..], d)
  }

  predicate HoldsContent(ss: seq<Section>, d: Grants)
    requires Has(d, ss)
  {
    ss != [] && (d.at[ss[0].name].Chars() > 0 || HoldsContent(ss[1..], d))
  }

  /** An unknown window: each section is filled to its knob alone, whatever the others take. */
  function Unbounded(ss: seq<Section>, withheld: map<string, seq<string>>, d: Grants): Grants {
    if ss == [] then d
    else
      var g := Granted(ss[0], ss[0].preferred.GetOr(ss[0].WantedChars()), WithheldAt(withheld, ss[0].name));
      Unbounded(ss[1..], withheld, d.Put(ss[0].name, g))
  }

  lemma {:induction false} SpreadKeys(ss: seq<Section>, withheld: map<string, seq<string>>, knobs: bool, left: nat,
                                      d: Grants)
    ensures var d' := Spread(ss, withheld, knobs, left, d).0;
            d'.at.Keys == d.at.Keys + NameSet(ss) && Has(d', ss)
  {
    hide SpreadGrant, TotalChars, Greedy;
    if ss != [] {
      var g := SpreadGrant(ss[0], withheld, knobs, left);
      SpreadKeys(ss[1..], withheld, knobs, Max(0, left - g.Chars()), d.Put(ss[0].name, g));
    }
  }

  lemma {:induction false} RefillKeys(ss: seq<Section>, left: nat, d: Grants)
    requires Has(d, ss)
    ensures Refill(ss, left, d).0.at.Keys == d.at.Keys && Has(Refill(ss, left, d).0, ss)
  {
    hide RefillGrant, Unchanged, TotalChars, Greedy;
    if ss == [] {
    } else {
      var got := d.at[ss[0].name];
      var grown := RefillGrant(ss[0], got, left);
      if Unchanged(ss[0], got, left) {
        RefillKeys(ss[1..], left, d);
      } else {
        HasMonotone(d, d.Put(ss[0].name, grown), ss[1..]);
        RefillKeys(ss[1..], Max(0, left - (grown.Chars() - got.Chars())), d.Put(ss[0].name, grown));
      }
    }
  }

  function RoomBeforeClamp(cfg: Config, window: int, completion: int, fixed: nat): int {
    (cfg.cap(window) - completion) * cfg.charsPerToken - fixed
  }

  /** Characters the file sections may share in a known window. */
  function Room(cfg: Config, window: int, completion: int, fixed: nat): nat {
    Max(0, RoomBeforeClamp(cfg, window, completion, fixed))
  }

  function KnownWindowGrants(cfg: Config, sections: seq<Section>, budget: nat): Grants {
    var ss, withheld := WithholdAll(cfg, sections), WithheldPaths(cfg, sections);
    SpreadKeys(ss, withheld, true, budget, NO_GRANTS);
    var (d1, left1) := Spread(ss, withheld, true, budget, NO_GRANTS);
    RefillKeys(ss, left1, d1);
    var (d2, _) := Refill(ss, left1, d1);
    if PriorityInverted(ss, d2) then Spread(ss, withheld, false, budget, d2).0 else d2
  }

  function AllocationPlan(cfg: Config, sections: seq<Section>, fixed: nat, window: Option<int>, completion: int,
                          agent: Option<string>): (p: Plan)
    ensures p.agent == agent && p.window == window && p.completion == completion && p.fixed == fixed
  {
    if window.None? then
      var ss, withheld := WithholdAll(cfg, sections), WithheldPaths(cfg, sections);
      Plan(agent, window, completion, fixed, -1, Unbounded(ss, withheld, NO_GRANTS))
    else
      var budget := Room(cfg, window.value, completion, fixed);
      Plan(agent, window, completion, fixed, budget, KnownWindowGrants(cfg, sections, budget))
  }

  // ----- with distinct names the three passes are one plain fill

  predicate Distinct(ss: seq<Section>) {
    ss == [] || (NotNamed(ss[0].name, ss[1..]) && Distinct(ss[1..]))
  }

  predicate NotNamed(name: string, ss: seq<Section>) {
    ss == [] || (ss[0].name != name && NotNamed(name, ss[1..]))
  }

  function Used(ss: seq<Section>, d: Grants): nat
    requires Has(d, ss)
  {
    if ss == [] then 0 else d.at[ss[0].name].Chars() + Used(ss[1..], d)
  }

  predicate AllFilled(ss: seq<Section>, d: Grants)
    requires Has(d, ss)
  {
    ss == [] || (FilledAt(ss[0], d.at[ss[0].name], d.at[ss[0].name].budget) && AllFilled(ss[1..], d))
  }

  /** Nothing left over could be used: refilling from `spare` more characters changes nothing. */
  predicate Settled(ss: seq<Section>, d: Grants, spare: nat)
    requires Has(d, ss)
  {
    ss == [] ||
    (FilledAt(ss[0], d.at[ss[0].name], d.at[ss[0].name].Chars() + spare) && Settled(ss[1..], d, spare))
  }

  predicate SameDecision(g: SectionBudget, h: SectionBudget) {
    g.kept == h.kept && g.dropped == h.dropped
  }

  predicate SameDecisions(ss: seq<Section>, d: Grants, e: Grants)
    requires Has(d, ss) && Has(e, ss)
  {
    ss == [] || (SameDecision(d.at[ss[0].name], e.at[ss[0].name]) && SameDecisions(ss[1..], d, e))
  }

  lemma {:induction false} PutFrame(ss: seq<Section>, d: Grants, name: string, g: SectionBudget)
    requires NotNamed(name, ss) && Has(d, ss)
    ensures Has(d.Put(name, g), ss)
    ensures Used(ss, d.Put(name, g)) == Used(ss, d)
    ensures AllFilled(ss, d.Put(name, g)) == AllFilled(ss, d)
  {
    if ss != [] {
      PutFrame(ss[1..], d, name, g);
    }
  }

  /** One section of a spread: its grant is filled and what it leaves goes on to the next. */
  lemma SpreadUnfolds(ss: seq<Section>, i: nat, withheld: map<string, seq<string>>, knobs: bool, left: nat, d: Grants)
    requires i < |ss|
    ensures var g := Granted(ss[i], Share(ss[i], knobs, left), WithheldAt(withheld, ss[i].name));
      Spread(ss[i..], withheld, knobs, left, d)
        == Spread(ss[i + 1..], withheld, knobs, Max(0, left - g.Chars()), d.Put(ss[i].name, g))
  {
    assert ss[i..][0] == ss[i] && ss[i..][1..] == ss[i + 1..];
  }

  lemma SpreadNothing(withheld: map<string, seq<string>>, knobs: bool, left: nat, d: Grants)
    ensures Spread([], withheld, knobs, left, d) == (d, left)
  {
  }

  lemma {:induction false} SpreadFrame(ss: seq<Section>, withheld: map<string, seq<string>>, knobs: bool, left: nat,
                                       d: Grants, name: string)
    requires NotNamed(name, ss) && name in d.at
    ensures var d' := Spread(ss, withheld, knobs, left, d).0;
            name in d'.at && d'.at[name] == d.at[name]
  {
    hide SpreadGrant, TotalChars, Greedy;
    if ss != [] {
      var g := SpreadGrant(ss[0], withheld, knobs, left);
      SpreadFrame(ss[1..], withheld, knobs, Max(0, left - g.Chars()), d.Put(ss[0].name, g), name);
    }
  }

  lemma {:induction false} SpreadFills(ss: seq<Section>, withheld: map<string, seq<string>>, knobs: bool, left: nat,
                                       d: Grants)
    requires Distinct(ss)
    ensures var (d', left') := Spread(ss, withheld, knobs, left, d);
            Has(d', ss) && Used(ss, d') + left' == left && AllFilled(ss, d')
  {
    hide SpreadGrant, TotalChars, Greedy;
    if ss != [] {
      var head, tail := ss[0], ss[1..];
      var g := SpreadGrant(head, withheld, knobs, left);
      SpreadFills(tail, withheld, knobs, left - g.Chars(), d.Put(head.name, g));
      SpreadFrame(tail, withheld, knobs, left - g.Chars(), d.Put(head.name, g), head.name);
    }
  }

  lemma SettledShrinks(s: Section, g: SectionBudget, spare: nat, less: nat)
    requires FilledAt(s, g, g.Chars() + spare) && less <= spare
    ensures FilledAt(s, g, g.Chars() + less)
  {
    if Greedy(s.files, g.Chars() + less) != Greedy(s.files, g.Chars() + spare) {
      GreedyDivergence(s.files, g.Chars() + less, g.Chars() + spare);
    }
  }

  /** One step of pass two: the section ends settled at what is left after it. */
  lemma RefillSettlesOne(s: Section, got: SectionBudget, left: nat)
    requires FilledAt(s, got, got.budget)
    ensures Unchanged(s, got, left) ==> FilledAt(s, got, got.Chars() + left)
    ensures !Unchanged(s, got, left) ==> got.Chars() < RefillGrant(s, got, left).Chars()
  {
    var used, grown := got.Chars(), RefillGrant(s, got, left);
    GreedyWithinBudget(s.files, got.budget);
    if got.dropped == [] {
      GreedyDropsNothingIff(s.files, got.budget);
      GreedyDropsNothingIff(s.files, used + left);
    } else if Greedy(s.files, used + left) != Greedy(s.files, got.budget) {
      if used + left <= got.budget {
        GreedyDivergence(s.files, used + left, got.budget);
      } else {
        GreedyDivergence(s.files, got.budget, used + left);
        assert grown.kept == Greedy(s.files, used + left).0;
      }
    }
  }

  lemma {:induction false} RefillFrame(ss: seq<Section>, left: nat, d: Grants, name: string)
    requires Has(d, ss) && NotNamed(name, ss) && name in d.at
    ensures var d' := Refill(ss, left, d).0; name in d'.at && d'.at[name] == d.at[name]
  {
    hide RefillGrant, Unchanged, TotalChars, Greedy;
    if ss != [] {
      var got := d.at[ss[0].name];
      var grown := RefillGrant(ss[0], got, left);
      if Unchanged(ss[0], got, left) {
        RefillFrame(ss[1..], left, d, name);
      } else {
        HasMonotone(d, d.Put(ss[0].name, grown), ss[1..]);
        RefillFrame(ss[1..], Max(0, left - (grown.Chars() - got.Chars())), d.Put(ss[0].name, grown), name);
      }
    }
  }

  lemma {:induction false} RefillSettles(ss: seq<Section>, left: nat, d: Grants)
    requires Distinct(ss) && Has(d, ss) && AllFilled(ss, d)
    ensures var (d', left') := Refill(ss, left, d);
            Has(d', ss) && left' <= left && Used(ss, d') + left' == Used(ss, d) + left && Settled(ss, d', left')
  {
    hide RefillGrant, Unchanged, TotalChars, Greedy;
    if ss != [] {
      var head, tail := ss[0], ss[1..];
      var got := d.at[head.name];
      var grown := RefillGrant(head, got, left);
      RefillSettlesOne(head, got, left);
      if Unchanged(head, got, left) {
        RefillSettles(tail, left, d);
        RefillFrame(tail, left, d, head.name);
        SettledShrinks(head, got, left, Refill(tail, left, d).1);
      } else {
        var d1, left1 := d.Put(head.name, grown), left - (grown.Chars() - got.Chars());
        PutFrame(tail, d, head.name, grown);
        RefillSettles(tail, left1, d1);
        RefillFrame(tail, left1, d1, head.name);
        SettledShrinks(head, grown, left1, Refill(tail, left1, d1).1);
      }
    }
  }

  /** The plain fill the three passes amount to: priority order, no knobs, no second thoughts. */
  function PlainFill(ss: seq<Section>, budget: nat): Grants {
    Spread(ss, map[], false, budget, NO_GRANTS).0
  }

  lemma SpreadHead(ss: seq<Section>, withheld: map<string, seq<string>>, knobs: bool, left: nat, d: Grants)
    requires ss != []
    ensures var g := SpreadGrant(ss[0], withheld, knobs, left);
      Spread(ss, withheld, knobs, left, d)
        == Spread(ss[1..], withheld, knobs, Max(0, left - g.Chars()), d.Put(ss[0].name, g))
  {
  }

  lemma GrantsDecideAlike(s: Section, withheld: map<string, seq<string>>, withheld': map<string, seq<string>>,
                          left: nat)
    ensures var g, g' := SpreadGrant(s, withheld, false, left), SpreadGrant(s, withheld', false, left);
            SameDecision(g, g') && g.Chars() == g'.Chars()
  {
    hide SpreadGrant, TotalChars, Greedy;
  }

  /** What a spread decides depends on the sections and the room, not on the dict it writes into. */
  lemma {:induction false} SpreadIgnoresDict(ss: seq<Section>, withheld: map<string, seq<string>>,
                                             withheld': map<string, seq<string>>, left: nat, d: Grants, d': Grants)
    requires Distinct(ss)
    ensures var r, r' := Spread(ss, withheld, false, left, d).0, Spread(ss, withheld', false, left, d').0;
            Has(r, ss) && Has(r', ss) && SameDecisions(ss, r, r')
  {
    hide Spread, SpreadGrant, TotalChars, Greedy, FilledAt, SectionBudget.Chars, SameDecision;
    if ss != [] {
      SpreadHead(ss, withheld, false, left, d);
      SpreadHead(ss, withheld', false, left, d');
      var head, tail := ss[0], ss[1..];
      var g := SpreadGrant(head, withheld, false, left);
      var g' := SpreadGrant(head, withheld', false, left);
      var rest: nat := Max(0, left - g.Chars());
      GrantsDecideAlike(head, withheld, withheld', left);
      SpreadIgnoresDict(tail, withheld, withheld', rest, d.Put(head.name, g), d'.Put(head.name, g'));
      SpreadFrame(tail, withheld, false, rest, d.Put(head.name, g), head.name);
      SpreadFrame(tail, withheld', false, rest, d'.Put(head.name, g'), head.name);
    }
  }

  lemma {:induction false} NoContentIff(ss: seq<Section>, d: Grants)
    requires Has(d, ss)
    ensures HoldsContent(ss, d) <==> Used(ss, d) > 0
    ensures PriorityInverted(ss, d) ==> HoldsContent(ss, d)
  {
    if ss != [] {
      NoContentIff(ss[1..], d);
    }
  }

  /** The first section of a settled, uninverted dict holds what a fill of all the room gives it. */
  lemma HeadIsPlain(ss: seq<Section>, spare: nat, d: Grants)
    requires ss != [] && Has(d, ss) && Settled(ss, d, spare) && !PriorityInverted(ss, d)
    ensures FilledAt(ss[0], d.at[ss[0].name], Used(ss, d) + spare)
    ensures !PriorityInverted(ss[1..], d)
  {
    var got, room := d.at[ss[0].name], Used(ss, d) + spare;
    NoContentIff(ss[1..], d);
    if got.dropped == [] {
      GreedyDropsNothingIff(ss[0].files, got.Chars() + spare);
      GreedyDropsNothingIff(ss[0].files, room);
    }
  }

  /** A settled dict with no priority inversion is the plain fill of everything it holds and spares. */
  lemma {:induction false} SettledIsPlain(ss: seq<Section>, spare: nat, d: Grants, onto: Grants)
    requires Distinct(ss) && Has(d, ss) && Settled(ss, d, spare) && !PriorityInverted(ss, d)
    ensures var r := Spread(ss, map[], false, Used(ss, d) + spare, onto).0;
            Has(r, ss) && SameDecisions(ss, d, r)
  {
    hide SpreadGrant, TotalChars, Greedy;
    if ss != [] {
      HeadIsPlain(ss, spare, d);
      var head, tail := ss[0], ss[1..];
      var room: nat := Used(ss, d) + spare;
      var g := SpreadGrant(head, map[], false, room);
      var onto1 := onto.Put(head.name, g);
      assert SameDecision(g, d.at[head.name]) && g.Chars() == d.at[head.name].Chars();
      var rest: nat := Used(tail, d) + spare;
      assert Spread(ss, map[], false, room, onto) == Spread(tail, map[], false, rest, onto1);
      SettledIsPlain(tail, spare, d, onto1);
      SpreadFrame(tail, map[], false, rest, onto1, head.name);
    }
  }

  lemma {:induction false} DecisionAt(ss: seq<Section>, d: Grants, e: Grants, i: nat)
    requires Has(d, ss) && Has(e, ss) && SameDecisions(ss, d, e) && i < |ss|
    ensures ss[i].name in d.at && ss[i].name in e.at && SameDecision(d.at[ss[i].name], e.at[ss[i].name])
  {
    if i > 0 {
      DecisionAt(ss[1..], d, e, i - 1);
    }
  }

  lemma {:induction false} WithholdKeepsNames(cfg: Config, ss: seq<Section>)
    requires Distinct(ss)
    ensures Distinct(WithholdAll(cfg, ss))
    ensures forall name :: NotNamed(name, ss) ==> NotNamed(name, WithholdAll(cfg, ss))
  {
    if ss != [] {
      WithholdKeepsNames(cfg, ss[1..]);
      assert WithholdAll(cfg, ss)[1..] == WithholdAll(cfg, ss[1..]);
    }
  }

  /** The decisions of the three passes and of the plain fill, section by section. */
  lemma KnownWindowIsPlain(cfg: Config, sections: seq<Section>, budget: nat)
    requires Distinct(sections)
    ensures var d, plain := KnownWindowGrants(cfg, sections, budget), PlainFill(WithholdAll(cfg, sections), budget);
            var ss := WithholdAll(cfg, sections);
            Has(d, ss) && Has(plain, ss) && SameDecisions(ss, d, plain) && Used(ss, d) <= budget
  {
    hide Spread, Refill, PriorityInverted, Used, AllFilled, Settled, SameDecisions;
    var ss, withheld := WithholdAll(cfg, sections), WithheldPaths(cfg, sections);
    WithholdKeepsNames(cfg, sections);
    SpreadFills(ss, withheld, true, budget, NO_GRANTS);
    var (d1, left1) := Spread(ss, withheld, true, budget, NO_GRANTS);
    RefillSettles(ss, left1, d1);
    var (d2, left2) := Refill(ss, left1, d1);
    if PriorityInverted(ss, d2) {
      SpreadIgnoresDict(ss, withheld, map[], budget, d2, NO_GRANTS);
      SpreadFills(ss, withheld, false, budget, d2);
    } else {
      SettledIsPlain(ss, left2, d2, NO_GRANTS);
    }
  }

  predicate SameFor(name: string, d: Grants, e: Grants) {
    name in d.at && name in e.at && SameDecision(d.at[name], e.at[name])
  }

  lemma KnownWindowIsPlainAt(cfg: Config, sections: seq<Section>, budget: nat, i: nat)
    requires Distinct(sections) && i < |sections|
    ensures SameFor(sections[i].name, KnownWindowGrants(cfg, sections, budget),
                    PlainFill(WithholdAll(cfg, sections), budget))
  {
    KnownWindowIsPlain(cfg, sections, budget);
    DecisionAt(WithholdAll(cfg, sections), KnownWindowGrants(cfg, sections, budget),
               PlainFill(WithholdAll(cfg, sections), budget), i);
  }

  /**
   With a known window and distinct section names, the three passes with knobs keep and drop exactly
   what one fill in priority order without knobs keeps and drops.
   */
  lemma AllocationIsOnePlainFill(cfg: Config, sections: seq<Section>, fixed: nat, window: int, completion: int,
                                 agent: Option<string>)
    requires Distinct(sections)
    ensures forall i :: 0 <= i < |sections| ==>
              SameFor(sections[i].name,
                      AllocationPlan(cfg, sections, fixed, Some(window), completion, agent).sections,
                      PlainFill(WithholdAll(cfg, sections), Room(cfg, window, completion, fixed)))
  {
    forall i | 0 <= i < |sections|
      ensures SameFor(sections[i].name,
                      AllocationPlan(cfg, sections, fixed, Some(window), completion, agent).sections,
                      PlainFill(WithholdAll(cfg, sections), Room(cfg, window, completion, fixed)))
    {
      KnownWindowIsPlainAt(cfg, sections, Room(cfg, window, completion, fixed), i);
    }
  }

  // ----- the keys of the dict, its total, and what fits

  function Names(ss: seq<Section>): seq<string> {
    if ss == [] then [] else [ss[0].name] + Names(ss[1..])
  }

  predicate NoneIn(ss: seq<Section>, d: Grants) {
    ss == [] || (ss[0].name !in d.at && NoneIn(ss[1..], d))
  }

  lemma {:induction false} NoneInAfterPut(ss: seq<Section>, d: Grants, name: string, g: SectionBudget)
    requires NoneIn(ss, d) && NotNamed(name, ss)
    ensures NoneIn(ss, d.Put(name, g))
  {
    if ss != [] {
      NoneInAfterPut(ss[1..], d, name, g);
    }
  }

  lemma {:induction false} SpreadOrder(ss: seq<Section>, withheld: map<string, seq<string>>, knobs: bool, left: nat,
                                       d: Grants)
    requires Distinct(ss) && NoneIn(ss, d)
    ensures Spread(ss, withheld, knobs, left, d).0.order == d.order + Names(ss)
  {
    hide SpreadGrant, TotalChars, Greedy, NotNamed;
    if ss == [] {
      assert d.order + [] == d.order;
    } else {
      var g := SpreadGrant(ss[0], withheld, knobs, left);
      NoneInAfterPut(ss[1..], d, ss[0].name, g);
      SpreadOrder(ss[1..], withheld, knobs, Max(0, left - g.Chars()), d.Put(ss[0].name, g));
      Regroup(d.order, [ss[0].name], Names(ss[1..]));
    }
  }

  lemma {:induction false} SpreadKeepsOrder(ss: seq<Section>, withheld: map<string, seq<string>>, knobs: bool,
                                            left: nat, d: Grants)
    requires Has(d, ss)
    ensures Spread(ss, withheld, knobs, left, d).0.order == d.order
  {
    hide SpreadGrant, TotalChars, Greedy;
    if ss != [] {
      var g := SpreadGrant(ss[0], withheld, knobs, left);
      HasMonotone(d, d.Put(ss[0].name, g), ss[1..]);
      SpreadKeepsOrder(ss[1..], withheld, knobs, Max(0, left - g.Chars()), d.Put(ss[0].name, g));
    }
  }

  lemma {:induction false} RefillKeepsOrder(ss: seq<Section>, left: nat, d: Grants)
    requires Has(d, ss)
    ensures Refill(ss, left, d).0.order == d.order
  {
    hide RefillGrant, Unchanged, TotalChars, Greedy;
    if ss != [] {
      var got := d.at[ss[0].name];
      var grown := RefillGrant(ss[0], got, left);
      if Unchanged(ss[0], got, left) {
        RefillKeepsOrder(ss[1..], left, d);
      } else {
        HasMonotone(d, d.Put(ss[0].name, grown), ss[1..]);
        RefillKeepsOrder(ss[1..], Max(0, left - (grown.Chars() - got.Chars())), d.Put(ss[0].name, grown));
      }
    }
  }

  lemma {:induction false} TotalIsUsed(ss: seq<Section>, d: Grants)
    requires Has(d, ss)
    ensures TotalOver(Names(ss), d.at) == Used(ss, d)
  {
    if ss != [] {
      assert Names(ss)[1..] == Names(ss[1..]);
      TotalIsUsed(ss[1..], d);
    }
  }

  /** The dict of a known window has one entry per section, and the sections share no more than the budget. */
  lemma KnownWindowTotal(cfg: Config, sections: seq<Section>, budget: nat)
    requires Distinct(sections)
    ensures var d := KnownWindowGrants(cfg, sections, budget);
            d.at.Keys == NameSet(WithholdAll(cfg, sections)) && d.Total() <= budget
  {
    hide Spread, Refill, PriorityInverted, Used, AllFilled, Settled, SameDecisions;
    var ss, withheld := WithholdAll(cfg, sections), WithheldPaths(cfg, sections);
    WithholdKeepsNames(cfg, sections);
    NoneInEmpty(ss);
    SpreadOrder(ss, withheld, true, budget, NO_GRANTS);
    SpreadKeys(ss, withheld, true, budget, NO_GRANTS);
    var (d1, left1) := Spread(ss, withheld, true, budget, NO_GRANTS);
    RefillKeepsOrder(ss, left1, d1);
    RefillKeys(ss, left1, d1);
    SpreadKeys(ss, withheld, false, budget, Refill(ss, left1, d1).0);
    SpreadKeepsOrder(ss, withheld, false, budget, Refill(ss, left1, d1).0);
    KnownWindowIsPlain(cfg, sections, budget);
    TotalIsUsed(ss, KnownWindowGrants(cfg, sections, budget));
    assert NO_GRANTS.order + Names(ss) == Names(ss);
  }

  lemma {:induction false} NoneInEmpty(ss: seq<Section>)
    ensures NoneIn(ss, NO_GRANTS)
  {
    if ss != [] {
      NoneInEmpty(ss[1..]);
    }
  }

  lemma QuotientBound(x: nat, k: Positive, c: int)
    ensures x <= c * k ==> x / k <= c
  {
    if x <= c * k && x / k > c {
      assert x / k * k <= x;
      assert (x / k - c) * k >= k by {
        QuotientStep(x / k - c, k);
      }
    }
  }

  lemma QuotientStep(n: int, k: Positive)
    requires n >= 1
    ensures n * k >= k
  {
  }

  lemma FitsArithmetic(fixed: nat, total: nat, k: Positive, spare: int)
    requires total <= Max(0, spare * k - fixed)
    ensures (fixed + total) / k <= spare <==> fixed / k <= spare
  {
    if total > 0 {
      QuotientBound(fixed + total, k, spare);
      QuotientBound(fixed, k, spare);
    }
  }

  /** Whether an allocation fits is decided by the fixed part and the completion alone. */
  lemma FitsIffFixedPartFits(cfg: Config, sections: seq<Section>, fixed: nat, window: int, completion: int,
                             agent: Option<string>)
    requires Distinct(sections)
    ensures AllocationPlan(cfg, sections, fixed, Some(window), completion, agent).Fits(cfg)
            <==> fixed / cfg.charsPerToken + completion <= cfg.cap(window)
  {
    hide KnownWindowGrants, TotalOver, TotalChars;
    var d := KnownWindowGrants(cfg, sections, Room(cfg, window, completion, fixed));
    KnownWindowTotal(cfg, sections, Room(cfg, window, completion, fixed));
    FitsArithmetic(fixed, d.Total(), cfg.charsPerToken, cfg.cap(window) - completion);
  }

  // ----- when nothing is dropped

  function WantedBy(ss: seq<Section>): nat {
    if ss == [] then 0 else ss[0].WantedChars() + WantedBy(ss[1..])
  }

  predicate NoDrops(ss: seq<Section>, d: Grants)
    requires Has(d, ss)
  {
    ss == [] || (d.at[ss[0].name].dropped == [] && NoDrops(ss[1..], d))
  }

  lemma {:induction false} PlainNoDropsIff(ss: seq<Section>, left: nat, d: Grants)
    requires Distinct(ss)
    ensures var d' := Spread(ss, map[], false, left, d).0;
            Has(d', ss) && (NoDrops(ss, d') <==> WantedBy(ss) <= left)
  {
    hide SpreadGrant, TotalChars, Greedy;
    if ss != [] {
      var g := SpreadGrant(ss[0], map[], false, left);
      GreedyWithinBudget(ss[0].files, left);
      GreedyDropsNothingIff(ss[0].files, left);
      PlainNoDropsIff(ss[1..], left - g.Chars(), d.Put(ss[0].name, g));
      SpreadFrame(ss[1..], map[], false, left - g.Chars(), d.Put(ss[0].name, g), ss[0].name);
    }
  }

  lemma {:induction false} NoDropsFrame(ss: seq<Section>, d: Grants, e: Grants)
    requires Has(d, ss) && Has(e, ss) && SameDecisions(ss, d, e)
    ensures NoDrops(ss, d) <==> NoDrops(ss, e)
  {
    if ss != [] {
      NoDropsFrame(ss[1..], d, e);
    }
  }

  lemma {:induction false} DropsAreNamed(ss: seq<Section>, d: Grants)
    requires Has(d, ss)
    ensures NoDrops(ss, d) <==> forall name <- NameSet(ss) :: name in d.at ==> d.at[name].dropped == []
    ensures forall name <- NameSet(ss) :: name in d.at
  {
    if ss != [] {
      DropsAreNamed(ss[1..], d);
    }
  }

  /** A known window drops nothing exactly when its share holds the fixed part and everything not withheld. */
  lemma DropsNothingIff(cfg: Config, sections: seq<Section>, fixed: nat, window: int, completion: int,
                        agent: Option<string>)
    requires Distinct(sections)
    ensures !AllocationPlan(cfg, sections, fixed, Some(window), completion, agent).DroppedAny()
            <==> || WantedBy(WithholdAll(cfg, sections)) == 0
                 || fixed + WantedBy(WithholdAll(cfg, sections)) <= (cfg.cap(window) - completion) * cfg.charsPerToken
  {
    var budget, ss := Room(cfg, window, completion, fixed), WithholdAll(cfg, sections);
    var d := KnownWindowGrants(cfg, sections, budget);
    WithholdKeepsNames(cfg, sections);
    KnownWindowTotal(cfg, sections, budget);
    KnownWindowIsPlain(cfg, sections, budget);
    DropsAreNamed(ss, d);
    NoDropsFrame(ss, d, PlainFill(ss, budget));
    PlainNoDropsIff(ss, budget, NO_GRANTS);
    hide KnownWindowGrants, WantedBy, NoDrops, Has, PlainFill;
    RoomHolds(cfg, window, completion, fixed, WantedBy(ss));
  }

  lemma RoomHolds(cfg: Config, window: int, completion: int, fixed: nat, wanted: nat)
    ensures wanted <= Room(cfg, window, completion, fixed)
       <==> wanted == 0 || fixed + wanted <= (cfg.cap(window) - completion) * cfg.charsPerToken
  {
  }

  lemma {:induction false} FilledWhole(ss: seq<Section>, d: Grants, i: nat)
    requires Has(d, ss) && AllFilled(ss, d) && i < |ss|
    ensures ss[i].name in d.at && FilledAt(ss[i], d.at[ss[i].name], d.at[ss[i].name].budget)
  {
    if i > 0 {
      FilledWhole(ss[1..], d, i - 1);
    }
  }

  lemma {:induction false} UnboundedFills(ss: seq<Section>, withheld: map<string, seq<string>>, d: Grants)
    requires Distinct(ss)
    ensures Has(Unbounded(ss, withheld, d), ss) && AllFilled(ss, Unbounded(ss, withheld, d))
    ensures forall name <- d.at :: NotNamed(name, ss) ==>
              name in Unbounded(ss, withheld, d).at && Unbounded(ss, withheld, d).at[name] == d.at[name]
  {
    if ss != [] {
      var g := Granted(ss[0], ss[0].preferred.GetOr(ss[0].WantedChars()), WithheldAt(withheld, ss[0].name));
      UnboundedFills(ss[1..], withheld, d.Put(ss[0].name, g));
    }
  }

  /** With an unknown window a section is granted a greedy fill of its own knob, or of everything. */
  lemma {:induction false} UnboundedAt(ss: seq<Section>, withheld: map<string, seq<string>>, d: Grants, i: nat)
    requires Distinct(ss) && i < |ss|
    ensures var u := Unbounded(ss, withheld, d);
      ss[i].name in u.at && FilledAt(ss[i], u.at[ss[i].name], Max(0, ss[i].preferred.GetOr(ss[i].WantedChars())))
  {
    var g := Granted(ss[0], ss[0].preferred.GetOr(ss[0].WantedChars()), WithheldAt(withheld, ss[0].name));
    UnboundedFills(ss[1..], withheld, d.Put(ss[0].name, g));
    if i > 0 {
      UnboundedAt(ss[1..], withheld, d.Put(ss[0].name, g), i - 1);
    }
  }

  /** In any allocation each section holds a greedy fill of its own files, for some number of characters. */
  lemma PlanIsGreedy(cfg: Config, sections: seq<Section>, fixed: nat, window: Option<int>, completion: int,
                     agent: Option<string>, i: nat) returns (b: nat)
    requires Distinct(sections) && i < |sections|
    ensures var p := AllocationPlan(cfg, sections, fixed, window, completion, agent);
            (p.Kept(sections[i].name), p.Dropped(sections[i].name))
              == Greedy(Withhold(cfg, sections[i]).files, b)
  {
    var ss := WithholdAll(cfg, sections);
    WithholdKeepsNames(cfg, sections);
    var d: Grants;
    if window.None? {
      d := Unbounded(ss, WithheldPaths(cfg, sections), NO_GRANTS);
      UnboundedFills(ss, WithheldPaths(cfg, sections), NO_GRANTS);
    } else {
      var budget := Room(cfg, window.value, completion, fixed);
      KnownWindowIsPlainAt(cfg, sections, budget, i);
      d := PlainFill(ss, budget);
      SpreadFills(ss, map[], false, budget, NO_GRANTS);
    }
    FilledWhole(ss, d, i);
    b := d.at[ss[i].name].budget;
  }

  /** In any allocation, a section that drops nothing shows every file it was given. */
  lemma UndroppedIsWhole(cfg: Config, sections: seq<Section>, fixed: nat, window: Option<int>, completion: int,
                         agent: Option<string>, i: nat)
    requires Distinct(sections) && i < |sections|
    ensures var p := AllocationPlan(cfg, sections, fixed, window, completion, agent);
            && (p.Dropped(sections[i].name) == [] ==>
                  p.Kept(sections[i].name) == Withhold(cfg, sections[i]).files)
            && (p.Dropped(sections[i].name) != [] ==> TotalChars(Withhold(cfg, sections[i]).files) > 0)
  {
    var b := PlanIsGreedy(cfg, sections, fixed, window, completion, agent, i);
    GreedyDropsNothingIff(Withhold(cfg, sections[i]).files, b);
  }

  lemma {:induction false} WithholdConserves(cfg: Config, files: seq<File>)
    ensures multiset(Paths(files)) == multiset(Paths(Shown(cfg, files))) + multiset(Hidden(cfg, files))
  {
    if files != [] {
      var head, tail := files[0], files[1..];
      WithholdConserves(cfg, tail);
      var shown, hidden := Shown(cfg, tail), Hidden(cfg, tail);
      assert multiset(Paths(files)) == multiset{head.path} + multiset(Paths(tail));
      if cfg.generated(head.path) {
        assert Shown(cfg, files) == shown && Hidden(cfg, files) == [head.path] + hidden;
      } else {
        assert Shown(cfg, files) == [head] + shown && Hidden(cfg, files) == hidden;
        assert ([head] + shown)[1..] == shown;
        assert multiset(Paths([head] + shown)) == multiset{head.path} + multiset(Paths(shown));
      }
    }
  }

  /** No path is lost: in any allocation every path of a section is kept, dropped by name, or withheld by name. */
  lemma AllocationConserves(cfg: Config, sections: seq<Section>, fixed: nat, window: Option<int>, completion: int,
                            agent: Option<string>, i: nat)
    requires Distinct(sections) && i < |sections|
    ensures var p := AllocationPlan(cfg, sections, fixed, window, completion, agent);
            var hidden := if sections[i].name == SECTION_PROTECTED then Hidden(cfg, sections[i].files) else [];
            multiset(Paths(sections[i].files)) ==
            multiset(Paths(p.Kept(sections[i].name))) + multiset(p.Dropped(sections[i].name)) + multiset(hidden)
  {
    var b := PlanIsGreedy(cfg, sections, fixed, window, completion, agent, i);
    GreedyConserves(Withhold(cfg, sections[i]).files, b);
    WithholdConserves(cfg, sections[i].files);
  }

  // ----- the allocator itself

  class Allocation {
    const agent: Option<string>
    const windowTokens: Option<int>
    const completionTokens: int
    const fixedChars: nat
    const inputBudgetChars: int
    var sections: Grants

    constructor (agent: Option<string>, windowTokens: Option<int>, completionTokens: int, fixedChars: nat,
                 inputBudgetChars: int)
      ensures View() == Plan(agent, windowTokens, completionTokens, fixedChars, inputBudgetChars, NO_GRANTS)
    {
      this.agent := agent;
      this.windowTokens := windowTokens;
      this.completionTokens := completionTokens;
      this.fixedChars := fixedChars;
      this.inputBudgetChars := inputBudgetChars;
      sections := NO_GRANTS;
    }

    function View(): Plan
      reads this
    {
      Plan(agent, windowTokens, completionTokens, fixedChars, inputBudgetChars, sections)
    }

    method FirstPass(ss: seq<Section>, withheld: map<string, seq<string>>) returns (left: int)
      requires sections == NO_GRANTS
      modifies this
      ensures inputBudgetChars >= 0 ==>
        left >= 0 && (sections, left) == Spread(ss, withheld, true, inputBudgetChars, NO_GRANTS)
      ensures inputBudgetChars < 0 ==> sections == Unbounded(ss, withheld, NO_GRANTS)
    {
      hide Greedy, TotalChars, Spread, SpreadGrant;
      left := inputBudgetChars;
      assert ss[0..] == ss;
      for i := 0 to |ss|
        invariant inputBudgetChars >= 0 ==>
          left >= 0 &&
          Spread(ss[i..], withheld, true, left, sections)
            == Spread(ss, withheld, true, inputBudgetChars, NO_GRANTS)
        invariant inputBudgetChars < 0 ==>
          Unbounded(ss[i..], withheld, sections) == Unbounded(ss, withheld, NO_GRANTS)
      {
        var section := ss[i];
        assert ss[i..][0] == section && ss[i..][1..] == ss[i + 1..];
        if inputBudgetChars >= 0 {
          SpreadUnfolds(ss, i, withheld, true, left, sections);
        }
        var share: int;
        if inputBudgetChars < 0 {
          share := section.preferred.GetOr(section.WantedChars());
        } else {
          share := if section.preferred.None? then left else Min(section.preferred.value, left);
        }
        var got := Fill(section, share);
        got := got.(withheld := WithheldAt(withheld, section.name));
        sections := sections.Put(section.name, got);
        if inputBudgetChars >= 0 {
          left := Max(0, left - got.Chars());
        }
      }
      if inputBudgetChars >= 0 {
        SpreadNothing(withheld, true, left, sections);
      }
    }

    method SecondPass(ss: seq<Section>, spare: nat)
      requires Has(sections, ss)
      modifies this
      ensures Has(old(sections), ss) && sections == Refill(ss, spare, old(sections)).0
    {
      hide Greedy, TotalChars;
      var left := spare;
      assert ss[0..] == ss;
      for i := 0 to |ss|
        invariant 0 <= left && Has(sections, ss[i..])
        invariant Refill(ss[i..], left, sections) == Refill(ss, spare, old(sections))
      {
        var section := ss[i];
        assert ss[i..][0] == section && ss[i..][1..] == ss[i + 1..];
        var got := sections.at[section.name];
        if got.dropped == [] || left <= 0 {
          continue;
        }
        var grown := Fill(section, got.Chars() + left);
        grown := grown.(withheld := got.withheld);
        var gained := grown.Chars() - got.Chars();
        if gained > 0 {
          HasMonotone(sections, sections.Put(section.name, grown), ss[i + 1..]);
          sections := sections.Put(section.name, grown);
          left := Max(0, left - gained);
        }
      }
    }

    method ThirdPass(ss: seq<Section>, withheld: map<string, seq<string>>)
      requires inputBudgetChars >= 0
      modifies this
      ensures sections == Spread(ss, withheld, false, inputBudgetChars, old(sections)).0
    {
      hide Greedy, TotalChars, Spread, SpreadGrant;
      var left := inputBudgetChars;
      assert ss[0..] == ss;
      for i := 0 to |ss|
        invariant 0 <= left
        invariant Spread(ss[i..], withheld, false, left, sections)
               == Spread(ss, withheld, false, inputBudgetChars, old(sections))
      {
        var section := ss[i];
        SpreadUnfolds(ss, i, withheld, false, left, sections);
        var got := Fill(section, left);
        got := got.(withheld := WithheldAt(withheld, section.name));
        sections := sections.Put(section.name, got);
        left := Max(0, left - got.Chars());
      }
      assert ss[|ss|..] == [];
      SpreadNothing(withheld, false, left, sections);
    }
  }

  method Allocate(cfg: Config, sections: seq<Section>, fixed: nat, window: Option<int>, completion: int,
                  agent: Option<string>)
    returns (alloc: Allocation)
    ensures fresh(alloc)
    ensures alloc.View() == AllocationPlan(cfg, sections, fixed, window, completion, agent)
  {
    hide Spread, Refill, Unbounded, PriorityInverted, WithheldPaths;
    var ss, withheld := WithholdAll(cfg, sections), WithheldPaths(cfg, sections);
    var budgetChars := -1;
    if window.Some? {
      var spare := cfg.cap(window.value) - completion;
      budgetChars := Max(0, spare * cfg.charsPerToken - fixed);
    }
    alloc := new Allocation(agent, window, completion, fixed, budgetChars);
    var left := alloc.FirstPass(ss, withheld);
    if budgetChars >= 0 {
      SpreadKeys(ss, withheld, true, budgetChars, NO_GRANTS);
      ghost var d1 := alloc.sections;
      alloc.SecondPass(ss, left);
      RefillKeys(ss, left, d1);
      if PriorityInverted(ss, alloc.sections) {
        alloc.ThirdPass(ss, withheld);
      }
    }
  }
}
