/**
 Choosing an agent by the allocation it would get: the chosen one first, then the candidates in order,
 and only when no window holds everything a trimmed prompt for the largest window.
 */
module Dispatch {
  import opened Options
  import opened PromptBudget

  function Others(agent: Option<string>, names: seq<string>): seq<Option<string>> {
    if names == [] then []
    else (if Some(names[0]) == agent then [] else [Some(names[0])]) + Others(agent, names[1..])
  }

  datatype Request = Request(
    cfg: Config, sections: seq<Section>, fixed: nat, completion: int,
    agent: Option<string>, candidates: seq<string>,
    windowOf: Option<string> -> Option<int>, reserveOf: Option<string> -> int)
  {
    function Chain(): (chain: seq<Option<string>>)
      ensures |chain| > 0 && chain[0] == agent
    {
      [agent] + Others(agent, candidates)
    }

    function PlanFor(cand: Option<string>): Plan {
      AllocationPlan(cfg, sections, fixed, windowOf(cand), completion + reserveOf(cand), cand)
    }

    /** A candidate that may take the prompt uncut: nothing dropped, it fits, and the window is known. */
    predicate Whole(cand: Option<string>) {
      (windowOf(cand).Some? || cand == agent) && !PlanFor(cand).DroppedAny() && PlanFor(cand).Fits(cfg)
    }
  }

  datatype Refusal =
    | EditableFileTooLarge(files: seq<(string, nat)>, window: Option<int>, agent: Option<string>)
    | PromptTooLarge(neededTokens: int, window: Option<int>)

  datatype Outcome = Planned(plan: Plan) | Refused(refusal: Refusal)

  /** The larger known window wins, an unknown one counting as none; the first allocation is taken as it is. */
  function Better(best: Option<Plan>, alloc: Plan): Plan {
    if best.None? || (alloc.window.Some? && alloc.window.value > best.value.window.GetOr(0)) then alloc
    else best.value
  }

  /** The first candidate that holds everything, or the best of them all when none does. */
  function Search(r: Request, chain: seq<Option<string>>, best: Option<Plan>): (bool, Option<Plan>) {
    if chain == [] then (false, best)
    else if r.Whole(chain[0]) then (true, Some(r.PlanFor(chain[0])))
    else Search(r, chain[1..], Some(Better(best, r.PlanFor(chain[0]))))
  }

  lemma {:induction false} SearchFindsOne(r: Request, chain: seq<Option<string>>, best: Option<Plan>)
    requires chain != [] || best.Some?
    ensures Search(r, chain, best).1.Some?
  {
    if chain != [] && !r.Whole(chain[0]) {
      SearchFindsOne(r, chain[1..], Some(Better(best, r.PlanFor(chain[0]))));
    }
  }

  function SizeOf(files: seq<File>, path: string): nat {
    if files == [] then 0
    else if files[|files| - 1].path == path then |files[|files| - 1].content|
    else SizeOf(files[..|files| - 1], path)
  }

  function EditableFiles(sections: seq<Section>): seq<File> {
    if sections == [] then []
    else (if sections[0].name == SECTION_EDITABLE then sections[0].files else []) + EditableFiles(sections[1..])
  }

  function Listing(r: Request, missing: seq<string>): seq<(string, nat)> {
    seq(|missing|, i requires 0 <= i < |missing| =>
      (missing[i], SizeOf(EditableFiles(r.sections), missing[i]) / r.cfg.charsPerToken))
  }

  function Conclude(r: Request, best: Plan): Outcome {
    if best.Dropped(SECTION_EDITABLE) != [] then
      Refused(EditableFileTooLarge(Listing(r, best.Dropped(SECTION_EDITABLE)), best.window, best.agent))
    else if !best.Fits(r.cfg) then
      Refused(PromptTooLarge(best.PromptTokens(r.cfg) + best.completion, best.window))
    else Planned(best)
  }

  function DispatchPlan(r: Request): Outcome {
    SearchFindsOne(r, r.Chain(), None);
    var (whole, best) := Search(r, r.Chain(), None);
    if whole then Planned(best.value) else Conclude(r, best.value)
  }

  /** The returned object is null exactly when the dispatch is refused. */
  method PlanDispatch(r: Request) returns (plan: Allocation?, refusal: Option<Refusal>)
    ensures plan != null ==> refusal.None? && fresh(plan) && DispatchPlan(r) == Planned(plan.View())
    ensures plan == null ==> refusal.Some? && DispatchPlan(r) == Refused(refusal.value)
  {
    hide AllocationPlan, Listing;
    var chain := r.Chain();
    var best: Allocation? := null;
    ghost var bestPlan: Option<Plan> := None;
    assert chain[0..] == chain;
    for i := 0 to |chain|
      invariant best == null <==> i == 0
      invariant best != null ==> fresh(best) && bestPlan == Some(best.View())
      invariant best == null ==> bestPlan == None
      invariant Search(r, chain[i..], bestPlan) == Search(r, chain, None)
    {
      var cand := chain[i];
      assert chain[i..][0] == cand && chain[i..][1..] == chain[i + 1..];
      var window := r.windowOf(cand);
      var reserved := r.completion + r.reserveOf(cand);
      var alloc := Allocate(r.cfg, r.sections, r.fixed, window, reserved, cand);
      assert alloc.View() == r.PlanFor(cand);
      var known := window.Some? || cand == r.agent;
      if known && !alloc.View().DroppedAny() && alloc.View().Fits(r.cfg) {
        return alloc, None;
      }
      if window.Some? && (best == null || window.value > best.windowTokens.GetOr(0)) {
        best := alloc;
      } else if best == null {
        best := alloc;
      }
      bestPlan := Some(best.View());
    }
    var missing := best.View().Dropped(SECTION_EDITABLE);
    if missing != [] {
      return null, Some(EditableFileTooLarge(Listing(r, missing), best.windowTokens, best.agent));
    }
    if !best.View().Fits(r.cfg) {
      var needed := best.View().PromptTokens(r.cfg) + best.completionTokens;
      return null, Some(PromptTooLarge(needed, best.windowTokens));
    }
    return best, None;
  }

  // ----- who is asked

  /** The chosen agent, or one of the candidates. */
  predicate Eligible(r: Request, cand: Option<string>) {
    cand == r.agent || (cand.Some? && cand.value in r.candidates)
  }

  lemma {:induction false} OthersHold(agent: Option<string>, names: seq<string>, cand: Option<string>)
    ensures cand in Others(agent, names) <==> cand != agent && cand.Some? && cand.value in names
  {
    if names != [] {
      OthersHold(agent, names[1..], cand);
    }
  }

  /** The chain holds the agent and the candidates, and nobody else. */
  lemma ChainHolds(r: Request, cand: Option<string>)
    ensures cand in r.Chain() <==> Eligible(r, cand)
  {
    OthersHold(r.agent, r.candidates, cand);
  }

  lemma PlaceInChain(r: Request, cand: Option<string>) returns (i: nat)
    requires Eligible(r, cand)
    ensures i < |r.Chain()| && r.Chain()[i] == cand
  {
    ChainHolds(r, cand);
    i :| 0 <= i < |r.Chain()| && r.Chain()[i] == cand;
  }

  /** The places, among the first `j` candidates, of those other than the agent. */
  function OtherPlaces(r: Request, j: nat): set<nat>
    requires j <= |r.candidates|
  {
    set i: nat | i < j && Some(r.candidates[i]) != r.agent
  }

  lemma {:induction false} OthersAppend(agent: Option<string>, names: seq<string>, name: string)
    ensures Others(agent, names + [name]) == Others(agent, names) + if Some(name) == agent then [] else [Some(name)]
  {
    if names == [] {
      assert [name][1..] == [] && names + [name] == [name];
    } else {
      assert (names + [name])[1..] == names[1..] + [name];
      OthersAppend(agent, names[1..], name);
    }
  }

  lemma {:induction false} OthersSoFar(r: Request, j: nat)
    requires j <= |r.candidates|
    ensures |Others(r.agent, r.candidates[..j])| == |OtherPlaces(r, j)|
    ensures Others(r.agent, r.candidates[..j]) <= Others(r.agent, r.candidates)
    decreases |r.candidates| - j
  {
    OthersCount(r, j);
    if j == |r.candidates| {
      assert r.candidates[..j] == r.candidates;
    } else {
      OthersSoFar(r, j + 1);
      assert r.candidates[..j + 1] == r.candidates[..j] + [r.candidates[j]];
      OthersAppend(r.agent, r.candidates[..j], r.candidates[j]);
    }
  }

  lemma {:induction false} OthersCount(r: Request, j: nat)
    requires j <= |r.candidates|
    ensures |Others(r.agent, r.candidates[..j])| == |OtherPlaces(r, j)|
  {
    PlacesGrow(r, j);
    if j > 0 {
      OthersCount(r, j - 1);
      assert r.candidates[..j] == r.candidates[..j - 1] + [r.candidates[j - 1]];
      OthersAppend(r.agent, r.candidates[..j - 1], r.candidates[j - 1]);
      hide Others, OtherPlaces;
    }
  }

  lemma PlacesGrow(r: Request, j: nat)
    requires j <= |r.candidates|
    ensures j == 0 ==> OtherPlaces(r, j) == {}
    ensures j > 0 ==>
              |OtherPlaces(r, j)| == |OtherPlaces(r, j - 1)| + if Some(r.candidates[j - 1]) != r.agent then 1 else 0
  {
    if j > 0 {
      assert OtherPlaces(r, j)
          == OtherPlaces(r, j - 1) + if Some(r.candidates[j - 1]) != r.agent then {j - 1} else {};
    }
  }

  /**
   The agent is asked first, and then every candidate other than it, as often as it is named and in that order:
   the candidate at `j` comes after as many as there are other candidates before it.
   */
  lemma ChainInOrder(r: Request, j: nat)
    requires j < |r.candidates|
    ensures r.Chain()[0] == r.agent && |r.Chain()| == 1 + |OtherPlaces(r, |r.candidates|)|
    ensures Some(r.candidates[j]) != r.agent ==>
      var k := 1 + |OtherPlaces(r, j)|; k < |r.Chain()| && r.Chain()[k] == Some(r.candidates[j])
  {
    OthersCount(r, |r.candidates|);
    assert r.candidates[..|r.candidates|] == r.candidates;
    OthersCount(r, j);
    OthersSoFar(r, j + 1);
    assert r.candidates[..j + 1] == r.candidates[..j] + [r.candidates[j]];
    OthersAppend(r.agent, r.candidates[..j], r.candidates[j]);
  }

  // ----- what a dispatch promises

  /** `p` is the plan of a candidate in the chain. */
  predicate FromChain(r: Request, chain: seq<Option<string>>, p: Plan) {
    exists i :: 0 <= i < |chain| && p == r.PlanFor(chain[i])
  }

  lemma {:induction false} SearchFromChain(r: Request, chain: seq<Option<string>>, best: Option<Plan>)
    requires Search(r, chain, best).1.Some?
    ensures var (whole, p) := Search(r, chain, best);
            && (FromChain(r, chain, p.value) || (!whole && best == p))
            && (whole ==> !p.value.DroppedAny() && p.value.Fits(r.cfg))
  {
    if chain != [] {
      if r.Whole(chain[0]) {
        assert r.PlanFor(chain[0]) == Search(r, chain, best).1.value;
      } else {
        var next := Better(best, r.PlanFor(chain[0]));
        SearchFromChain(r, chain[1..], Some(next));
        var p := Search(r, chain, best).1.value;
        if FromChain(r, chain[1..], p) {
          var i :| 0 <= i < |chain[1..]| && p == r.PlanFor(chain[1..][i]);
          assert p == r.PlanFor(chain[i + 1]);
        } else if next == r.PlanFor(chain[0]) {
          assert p == r.PlanFor(chain[0]);
        }
      }
    }
  }

  lemma PlannedOrigin(r: Request)
    requires DispatchPlan(r).Planned?
    ensures var p := DispatchPlan(r).plan;
            p.Fits(r.cfg) && p.Dropped(SECTION_EDITABLE) == [] && FromChain(r, r.Chain(), p)
  {
    SearchFindsOne(r, r.Chain(), None);
    SearchFromChain(r, r.Chain(), None);
  }

  lemma UndroppedEditable(r: Request, cand: Option<string>, i: nat)
    requires Distinct(r.sections) && i < |r.sections| && r.sections[i].name == SECTION_EDITABLE
    requires r.PlanFor(cand).Dropped(SECTION_EDITABLE) == []
    ensures r.PlanFor(cand).Kept(SECTION_EDITABLE) == r.sections[i].files
  {
    hide AllocationPlan;
    UndroppedIsWhole(r.cfg, r.sections, r.fixed, r.windowOf(cand), r.completion + r.reserveOf(cand), cand, i);
  }

  /** What is handed back fits, is the plan of the agent or of a candidate, and shows every editable file. */
  lemma PlannedShowsEveryEditable(r: Request) returns (cand: Option<string>)
    requires Distinct(r.sections) && DispatchPlan(r).Planned?
    ensures Eligible(r, cand) && DispatchPlan(r).plan == r.PlanFor(cand)
    ensures DispatchPlan(r).plan.Fits(r.cfg)
    ensures forall i :: 0 <= i < |r.sections| && r.sections[i].name == SECTION_EDITABLE ==>
              DispatchPlan(r).plan.Kept(SECTION_EDITABLE) == r.sections[i].files
  {
    PlannedOrigin(r);
    var p := DispatchPlan(r).plan;
    var k :| 0 <= k < |r.Chain()| && p == r.PlanFor(r.Chain()[k]);
    cand := r.Chain()[k];
    ChainHolds(r, cand);
    forall i | 0 <= i < |r.sections| && r.sections[i].name == SECTION_EDITABLE
      ensures p.Kept(SECTION_EDITABLE) == r.sections[i].files
    {
      UndroppedEditable(r, cand, i);
    }
  }

  /** Everything the prompt could show, with the fixed part, is inside the candidate's share of its window. */
  predicate CouldHoldEverything(r: Request, cand: Option<string>) {
    && r.windowOf(cand).Some?
    && r.fixed + WantedBy(WithholdAll(r.cfg, r.sections))
       <= (r.cfg.cap(r.windowOf(cand).value) - r.completion - r.reserveOf(cand)) * r.cfg.charsPerToken
  }

  lemma {:induction false} SearchFindsWhole(r: Request, chain: seq<Option<string>>, best: Option<Plan>, i: nat)
    requires i < |chain| && r.Whole(chain[i])
    ensures Search(r, chain, best).0
  {
    if !r.Whole(chain[0]) {
      SearchFindsWhole(r, chain[1..], Some(Better(best, r.PlanFor(chain[0]))), i - 1);
    }
  }

  /** Nothing is dropped when the agent or some candidate has a known window that could hold everything. */
  lemma NoNeedlessDrop(r: Request, cand: Option<string>)
    requires Distinct(r.sections)
    requires Eligible(r, cand) && CouldHoldEverything(r, cand)
    ensures DispatchPlan(r).Planned? && !DispatchPlan(r).plan.DroppedAny()
  {
    var i := PlaceInChain(r, cand);
    WholeIff(r, cand);
    QuotientBound(r.fixed, r.cfg.charsPerToken, SpareOf(r, cand));
    SpareIs(r, cand);
    hide AllocationPlan, Request.Whole, Request.Chain, WantedBy, WithholdAll, Distinct, RoomOf;
    SearchFindsWhole(r, r.Chain(), None, i);
    SearchFindsOne(r, r.Chain(), None);
    SearchFromChain(r, r.Chain(), None);
  }

  lemma SpareIs(r: Request, cand: Option<string>)
    requires CouldHoldEverything(r, cand)
    ensures r.fixed <= SpareOf(r, cand) * r.cfg.charsPerToken
    ensures WantedBy(WithholdAll(r.cfg, r.sections)) <= RoomOf(r, cand)
  {
    hide WantedBy, WithholdAll;
  }

  // ----- where the search settles

  predicate Known(r: Request, cand: Option<string>) {
    r.windowOf(cand).Some?
  }

  /** What a candidate's window counts for when the best so far is compared with another. */
  function Key(r: Request, cand: Option<string>): int {
    r.windowOf(cand).GetOr(0)
  }

  /**
   Where the search settles in a chain without a whole candidate: the first of the largest known windows,
   or the chosen agent, first in the chain, when no known window is larger than what its own counts for.
   */
  predicate IsPickOf(r: Request, chain: seq<Option<string>>, k: nat) {
    && k < |chain| && (k > 0 ==> Known(r, chain[k]))
    && (forall i :: 0 < i < |chain| && Known(r, chain[i]) ==> Key(r, chain[i]) <= Key(r, chain[k]))
    && (forall i :: 0 <= i < k && (i == 0 || Known(r, chain[i])) ==> Key(r, chain[i]) < Key(r, chain[k]))
  }

  predicate IsPick(r: Request, k: nat) {
    IsPickOf(r, r.Chain(), k)
  }

  lemma PickGrows(r: Request, chain: seq<Option<string>>, j: nat, b: nat)
    requires 0 < j < |chain| && IsPickOf(r, chain[..j], b)
    ensures var next := if Known(r, chain[j]) && Key(r, chain[j]) > Key(r, chain[b]) then j else b;
      IsPickOf(r, chain[..j + 1], next)
  {
    var before, after := chain[..j], chain[..j + 1];
    assert forall i :: 0 <= i < j ==> before[i] == after[i];
  }

  /** There is always one such candidate. */
  lemma {:induction false} PickExists(r: Request, j: nat) returns (k: nat)
    requires 0 < j <= |r.Chain()|
    ensures IsPickOf(r, r.Chain()[..j], k)
  {
    if j == 1 {
      k := 0;
    } else {
      var b := PickExists(r, j - 1);
      var chain := r.Chain();
      PickGrows(r, chain, j - 1, b);
      k := if Known(r, chain[j - 1]) && Key(r, chain[j - 1]) > Key(r, chain[b]) then j - 1 else b;
    }
  }

  lemma {:induction false} SearchSettles(r: Request, j: nat, b: nat) returns (k: nat)
    requires 0 < j <= |r.Chain()| && IsPickOf(r, r.Chain()[..j], b)
    ensures var (whole, best) := Search(r, r.Chain()[j..], Some(r.PlanFor(r.Chain()[b])));
      !whole ==> IsPick(r, k) && best == Some(r.PlanFor(r.Chain()[k]))
    decreases |r.Chain()| - j
  {
    hide AllocationPlan, Request.PlanFor, Request.Whole, Request.Chain;
    var chain := r.Chain();
    if j == |chain| {
      assert chain[..j] == chain;
      k := b;
    } else {
      assert b < |chain| && chain[..j][b] == chain[b];
      hide IsPickOf, Search;
      var next := if Known(r, chain[j]) && Key(r, chain[j]) > Key(r, chain[b]) then j else b;
      PickGrows(r, chain, j, b);
      k := SearchSettles(r, j + 1, next);
      SearchStep(r, chain, j, b);
    }
  }

  /** One candidate that is not whole: the search goes on with the better of two plans. */
  lemma SearchStep(r: Request, chain: seq<Option<string>>, j: nat, b: nat)
    requires j < |chain| && b < |chain|
    ensures var next := if Known(r, chain[j]) && Key(r, chain[j]) > Key(r, chain[b]) then j else b;
      Search(r, chain[j..], Some(r.PlanFor(chain[b])))
        == if r.Whole(chain[j]) then (true, Some(r.PlanFor(chain[j])))
           else Search(r, chain[j + 1..], Some(r.PlanFor(chain[next])))
  {
    hide AllocationPlan;
    assert chain[j..][0] == chain[j] && chain[j..][1..] == chain[j + 1..];
  }

  /** Some candidate is whole and is taken, or the best plan is the pick's. */
  lemma SearchTakes(r: Request) returns (k: nat)
    ensures var (whole, best) := Search(r, r.Chain(), None);
      && (whole <==> exists i :: 0 <= i < |r.Chain()| && r.Whole(r.Chain()[i]))
      && (!whole ==> IsPick(r, k) && best == Some(r.PlanFor(r.Chain()[k])))
  {
    hide AllocationPlan;
    var chain := r.Chain();
    assert IsPickOf(r, chain[..1], 0);
    k := SearchSettles(r, 1, 0);
    if i :| 0 <= i < |chain| && r.Whole(chain[i]) {
      SearchFindsWhole(r, chain, None, i);
    }
    SearchTakesWhole(r, chain, None);
  }

  lemma {:induction false} SearchTakesWhole(r: Request, chain: seq<Option<string>>, best: Option<Plan>)
    ensures Search(r, chain, best).0 ==> exists i :: 0 <= i < |chain| && r.Whole(chain[i])
  {
    hide AllocationPlan;
    if chain != [] && !r.Whole(chain[0]) {
      SearchTakesWhole(r, chain[1..], Some(Better(best, r.PlanFor(chain[0]))));
      if Search(r, chain, best).0 {
        var i :| 0 <= i < |chain[1..]| && r.Whole(chain[1..][i]);
        assert r.Whole(chain[i + 1]);
      }
    }
  }

  predicate SomeWhole(r: Request) {
    exists i :: 0 <= i < |r.Chain()| && r.Whole(r.Chain()[i])
  }

  /** The dispatch: planned when some candidate is whole, and else what the pick's plan leads to. */
  lemma DispatchConcludes(r: Request) returns (k: nat)
    ensures SomeWhole(r) ==> DispatchPlan(r).Planned?
    ensures !SomeWhole(r) ==> k < |r.Chain()| && IsPick(r, k) && DispatchPlan(r) == Conclude(r, r.PlanFor(r.Chain()[k]))
  {
    hide AllocationPlan, Conclude, Search;
    SearchFindsOne(r, r.Chain(), None);
    k := SearchTakes(r);
  }

  // ----- when a dispatch is refused for an editable file

  /** Characters a known window leaves the file sections. */
  function RoomOf(r: Request, cand: Option<string>): nat
    requires Known(r, cand)
  {
    var chars := (r.cfg.cap(r.windowOf(cand).value) - r.completion - r.reserveOf(cand)) * r.cfg.charsPerToken;
    if r.fixed <= chars then chars - r.fixed else 0
  }

  predicate EditableFirst(sections: seq<Section>) {
    Distinct(sections) && sections != [] && sections[0].name == SECTION_EDITABLE
  }

  /** A known window too small for the editable files even with the window to themselves. */
  predicate TooSmallForEditable(r: Request, cand: Option<string>)
    requires r.sections != []
  {
    Known(r, cand) ==>
      var files := r.sections[0].files;
      && TotalChars(files) > 0
      && r.fixed + TotalChars(files)
         > (r.cfg.cap(r.windowOf(cand).value) - r.completion - r.reserveOf(cand)) * r.cfg.charsPerToken
  }

  /** The editable files are more than the candidate's room, or than their knob where the window is unknown. */
  predicate DropsEditable(r: Request, cand: Option<string>)
    requires r.sections != []
  {
    var first := r.sections[0];
    TotalChars(first.files)
    > if Known(r, cand) then RoomOf(r, cand) else Max(0, first.preferred.GetOr(first.WantedChars()))
  }

  lemma FirstSectionDropsIff(cfg: Config, sections: seq<Section>, budget: nat)
    requires Distinct(sections) && sections != [] && sections[0].name == SECTION_EDITABLE
    ensures var d := KnownWindowGrants(cfg, sections, budget);
            SECTION_EDITABLE in d.at &&
            (d.at[SECTION_EDITABLE].dropped != [] <==> TotalChars(sections[0].files) > budget)
  {
    var ss := WithholdAll(cfg, sections);
    WithholdKeepsNames(cfg, sections);
    KnownWindowIsPlainAt(cfg, sections, budget, 0);
    GreedyDropsNothingIff(ss[0].files, budget);
    var g := Granted(ss[0], budget, WithheldAt(map[], SECTION_EDITABLE));
    var onto := NO_GRANTS.Put(SECTION_EDITABLE, g);
    assert PlainFill(ss, budget) == Spread(ss[1..], map[], false, Max(0, budget - g.Chars()), onto).0;
    SpreadFrame(ss[1..], map[], false, Max(0, budget - g.Chars()), onto, SECTION_EDITABLE);
  }

  /** With the editable section first, a candidate's plan drops an editable file exactly when it is too small. */
  lemma EditableDroppedIff(r: Request, cand: Option<string>)
    requires EditableFirst(r.sections)
    ensures r.PlanFor(cand).Dropped(SECTION_EDITABLE) != [] <==> DropsEditable(r, cand)
  {
    hide KnownWindowGrants, TotalChars, Distinct;
    if Known(r, cand) {
      FirstSectionDropsIff(r.cfg, r.sections, RoomOf(r, cand));
    } else {
      var ss, withheld := WithholdAll(r.cfg, r.sections), WithheldPaths(r.cfg, r.sections);
      WithholdKeepsNames(r.cfg, r.sections);
      UnboundedAt(ss, withheld, NO_GRANTS, 0);
      GreedyDropsNothingIff(ss[0].files, Max(0, ss[0].preferred.GetOr(ss[0].WantedChars())));
    }
  }

  predicate RefusedForEditable(r: Request) {
    DispatchPlan(r).Refused? && DispatchPlan(r).refusal.EditableFileTooLarge?
  }

  /** The editable refusal happens exactly when no candidate is whole and the pick is too small. */
  lemma EditableRefusalIff(r: Request)
    requires EditableFirst(r.sections)
    ensures RefusedForEditable(r)
            <==> !SomeWhole(r) && exists k: nat :: IsPick(r, k) && DropsEditable(r, r.Chain()[k])
  {
    hide AllocationPlan, DropsEditable, DispatchPlan, Search, IsPick, Listing;
    var k := DispatchConcludes(r);
    if !SomeWhole(r) {
      EditableDroppedIff(r, r.Chain()[k]);
      forall j: nat | IsPick(r, j) ensures j == k {
        OnePick(r, j, k);
      }
    }
  }

  lemma OnePick(r: Request, j: nat, k: nat)
    requires IsPick(r, j) && IsPick(r, k)
    ensures j == k
  {
  }

  /** A known candidate is whole exactly when its room holds everything and its window the fixed part. */
  lemma WholeIff(r: Request, cand: Option<string>)
    requires Distinct(r.sections) && Known(r, cand)
    ensures r.Whole(cand)
            <==> WantedBy(WithholdAll(r.cfg, r.sections)) <= RoomOf(r, cand) && FixedFits(r, cand)
  {
    hide AllocationPlan;
    var window, completion := r.windowOf(cand).value, r.completion + r.reserveOf(cand);
    DropsNothingIff(r.cfg, r.sections, r.fixed, window, completion, cand);
    FitsIffFixedPartFits(r.cfg, r.sections, r.fixed, window, completion, cand);
  }

  // ----- when a refusal is justified

  /** No known window, of the agent or of a candidate, could show the whole editable set. */
  ghost predicate NoneCouldShow(r: Request)
    requires r.sections != []
  {
    forall cand :: Eligible(r, cand) ==> TooSmallForEditable(r, cand)
  }

  ghost predicate EditableRefusalJustified(r: Request, sections: seq<Section>) {
    var asked := r.(sections := sections);
    EditableFirst(sections) && RefusedForEditable(asked) ==> NoneCouldShow(asked)
  }

  lemma TooSmallIff(r: Request, cand: Option<string>)
    requires r.sections != []
    ensures TooSmallForEditable(r, cand) <==> (Known(r, cand) ==> TotalChars(r.sections[0].files) > RoomOf(r, cand))
  {
  }

  /** No known window has more room than the pick's; an unknown pick has none to speak of. */
  ghost predicate PickHasMostRoom(r: Request) {
    forall k: nat, cand :: IsPick(r, k) && Eligible(r, cand) && Known(r, cand) ==>
      RoomOf(r, cand) <= if Known(r, r.Chain()[k]) then RoomOf(r, r.Chain()[k]) else 0
  }

  /** An editable drop in the pick rules out every window without more room. */
  lemma LargestRulesOutSmaller(r: Request, largest: Option<string>, other: Option<string>)
    requires EditableFirst(r.sections) && r.PlanFor(largest).Dropped(SECTION_EDITABLE) != []
    requires Known(r, other) ==> RoomOf(r, other) <= if Known(r, largest) then RoomOf(r, largest) else 0
    ensures TooSmallForEditable(r, other)
  {
    EditableDroppedIff(r, largest);
    TooSmallIff(r, other);
    hide RoomOf, TooSmallForEditable, AllocationPlan;
  }

  lemma EditableRefusalIsJustified(r: Request)
    requires EditableFirst(r.sections) && PickHasMostRoom(r) && RefusedForEditable(r)
    ensures NoneCouldShow(r)
  {
    hide AllocationPlan, RefusedForEditable;
    EditableRefusalIff(r);
    var k: nat :| IsPick(r, k) && DropsEditable(r, r.Chain()[k]);
    EditableDroppedIff(r, r.Chain()[k]);
    forall cand | Eligible(r, cand) ensures TooSmallForEditable(r, cand) {
      LargestRulesOutSmaller(r, r.Chain()[k], cand);
    }
  }

  /** A section that no room below `n` holds, and that an unknown window drops as well. */
  function Crowd(n: nat): Section {
    Section("prior", [File("p", seq(n, _ => 'x'))], Some(0))
  }

  /** One more character than any known window of the chain has room for. */
  function BeyondAll(r: Request, chain: seq<Option<string>>): (n: nat)
    ensures forall i :: 0 <= i < |chain| && Known(r, chain[i]) ==> RoomOf(r, chain[i]) < n
    ensures n > 0
  {
    if chain == [] then 1
    else Max(BeyondAll(r, chain[1..]), if Known(r, chain[0]) then RoomOf(r, chain[0]) + 1 else 1)
  }

  lemma {:induction false} WantedAtLeast(ss: seq<Section>, m: nat)
    requires m < |ss|
    ensures WantedBy(ss) >= ss[m].WantedChars()
  {
    if m > 0 {
      WantedAtLeast(ss[1..], m - 1);
    }
  }

  lemma CrowdSize(n: nat)
    ensures Crowd(n).WantedChars() == n
  {
    var files := Crowd(n).files;
    assert files[1..] == [] && TotalChars(files[1..]) == 0;
  }

  lemma CrowdedIsNotWhole(r: Request, n: nat, m: nat, i: nat)
    requires Distinct(r.sections) && m < |r.sections| && r.sections[m] == Crowd(n) && n > 0
    requires i < |r.Chain()| && (Known(r, r.Chain()[i]) ==> RoomOf(r, r.Chain()[i]) < n)
    ensures !r.Whole(r.Chain()[i])
  {
    hide KnownWindowGrants, WantedBy;
    var cand, ss := r.Chain()[i], WithholdAll(r.cfg, r.sections);
    assert |"prior"| < |SECTION_PROTECTED|;
    assert ss[m] == Crowd(n);
    CrowdSize(n);
    if Known(r, cand) {
      WantedAtLeast(ss, m);
      WholeIff(r, cand);
    } else if cand == r.agent {
      WithholdKeepsNames(r.cfg, r.sections);
      UnboundedAt(ss, WithheldPaths(r.cfg, r.sections), NO_GRANTS, m);
      GreedyDropsNothingIff(ss[m].files, 0);
      assert "prior" in r.PlanFor(cand).sections.at && r.PlanFor(cand).sections.at["prior"].dropped != [];
    }
  }

  /**
   An editable file of one character more than the pick has room for, and more besides than any window holds:
   refused, although candidate `cand` could show the editable file.
   */
  lemma MoreRoomIsRefused(r: Request, k: nat, cand: Option<string>) returns (sections: seq<Section>)
    requires IsPick(r, k) && Eligible(r, cand) && Known(r, cand)
    requires RoomOf(r, cand) > if Known(r, r.Chain()[k]) then RoomOf(r, r.Chain()[k]) else 0
    ensures !EditableRefusalJustified(r, sections)
  {
    hide DispatchPlan, RefusedForEditable, Crowd, RoomOf, BeyondAll;
    var limit: nat := if Known(r, r.Chain()[k]) then RoomOf(r, r.Chain()[k]) else 0;
    var edit := Section(SECTION_EDITABLE, [File("e", seq(limit + 1, _ => 'x'))], Some(0));
    var n := BeyondAll(r, r.Chain());
    sections := [edit, Crowd(n)];
    var asked := r.(sections := sections);
    assert edit.files[1..] == [] && TotalChars(edit.files) == limit + 1;
    CrowdedList(edit, n);
    SameRooms(r, sections);
    CrowdedIsRefused(asked, n, k);
    TooSmallIff(asked, cand);
    assert Eligible(asked, cand);
    hide TooSmallForEditable;
    assert !NoneCouldShow(asked);
  }

  lemma SameRooms(r: Request, sections: seq<Section>)
    ensures var asked := r.(sections := sections);
      && asked.Chain() == r.Chain()
      && (forall k: nat :: IsPick(asked, k) == IsPick(r, k))
      && (forall cand :: Known(asked, cand) == Known(r, cand) && Eligible(asked, cand) == Eligible(r, cand))
      && (forall cand :: Known(r, cand) ==> RoomOf(asked, cand) == RoomOf(r, cand))
  {
  }

  lemma CrowdedIsRefused(r: Request, n: nat, k: nat)
    requires EditableFirst(r.sections) && |r.sections| == 2 && r.sections[1] == Crowd(n) && n > 0
    requires forall j :: 0 <= j < |r.Chain()| && Known(r, r.Chain()[j]) ==> RoomOf(r, r.Chain()[j]) < n
    requires IsPick(r, k) && DropsEditable(r, r.Chain()[k])
    ensures RefusedForEditable(r)
  {
    hide AllocationPlan, RefusedForEditable, Crowd, DropsEditable, RoomOf;
    forall j | 0 <= j < |r.Chain()| ensures !r.Whole(r.Chain()[j]) {
      CrowdedIsNotWhole(r, n, 1, j);
    }
    EditableRefusalIff(r);
  }

  lemma CrowdedList(edit: Section, n: nat)
    requires edit.name == SECTION_EDITABLE
    ensures EditableFirst([edit, Crowd(n)]) && Distinct([Crowd(n)])
  {
    var crowd := [Crowd(n)];
    assert [edit, Crowd(n)][1..] == crowd && crowd[1..] == [];
    assert Distinct(crowd[1..]) && NotNamed("prior", crowd[1..]) && NotNamed(SECTION_EDITABLE, crowd[1..]);
    assert SECTION_EDITABLE[0] == 'e' && "prior"[0] == 'p';
    assert Distinct(crowd) && NotNamed(SECTION_EDITABLE, crowd);
  }

  /**
   Every editable refusal of a request is justified, whatever its sections, if and only if no known window
   of the chain has more room than the window the search settles on.
   */
  lemma EditableRefusalsJustifiedIff(r: Request)
    ensures (forall sections :: EditableRefusalJustified(r, sections)) <==> PickHasMostRoom(r)
  {
    if PickHasMostRoom(r) {
      forall sections ensures EditableRefusalJustified(r, sections) {
        var asked := r.(sections := sections);
        assert asked.Chain() == r.Chain();
        if EditableFirst(sections) && RefusedForEditable(asked) {
          MostRoomForAll(r, sections);
          EditableRefusalIsJustified(asked);
        }
      }
    } else {
      var k: nat, cand :| IsPick(r, k) && Eligible(r, cand) && Known(r, cand)
        && RoomOf(r, cand) > if Known(r, r.Chain()[k]) then RoomOf(r, r.Chain()[k]) else 0;
      var sections := MoreRoomIsRefused(r, k, cand);
    }
  }

  lemma MostRoomForAll(r: Request, sections: seq<Section>)
    requires PickHasMostRoom(r)
    ensures PickHasMostRoom(r.(sections := sections))
  {
    var asked := r.(sections := sections);
    SameRooms(r, sections);
    hide RoomOf, Others;
    forall k: nat, cand | IsPick(asked, k) && Eligible(asked, cand) && Known(asked, cand)
      ensures RoomOf(asked, cand)
           <= if Known(asked, asked.Chain()[k]) then RoomOf(asked, asked.Chain()[k]) else 0
    {
      assert IsPick(r, k) && Eligible(r, cand) && Known(r, cand);
    }
  }

  /** Where the pick has most room and the agent's window is known, a refusal means exactly that none could show. */
  lemma EditableRefusalMeansNoneCould(r: Request)
    requires EditableFirst(r.sections) && PickHasMostRoom(r) && Known(r, r.agent)
    ensures RefusedForEditable(r) <==> NoneCouldShow(r)
  {
    hide AllocationPlan, RefusedForEditable;
    EditableRefusalIff(r);
    if NoneCouldShow(r) {
      var k := SearchTakes(r);
      forall i | 0 <= i < |r.Chain()| ensures !r.Whole(r.Chain()[i]) {
        TooSmallIsNotWhole(r, r.Chain()[i]);
      }
      PickIsTooSmall(r, k);
    } else if RefusedForEditable(r) {
      EditableRefusalIsJustified(r);
    }
    hide IsPick, DropsEditable, TooSmallForEditable, EditableFirst, Distinct, RoomOf;
  }

  lemma TooSmallIsNotWhole(r: Request, cand: Option<string>)
    requires EditableFirst(r.sections) && NoneCouldShow(r) && cand in r.Chain()
    ensures r.Whole(cand) ==> !Known(r, cand) && cand == r.agent
  {
    hide AllocationPlan;
    ChainHolds(r, cand);
    TooSmallIff(r, cand);
    EditableDroppedIff(r, cand);
    hide TooSmallForEditable, RoomOf;
  }

  /** The pick's window is known where the agent's is. */
  lemma PickIsTooSmall(r: Request, k: nat)
    requires EditableFirst(r.sections) && NoneCouldShow(r) && Known(r, r.agent) && IsPick(r, k)
    ensures DropsEditable(r, r.Chain()[k])
  {
    ChainHolds(r, r.Chain()[k]);
    TooSmallIff(r, r.Chain()[k]);
    hide TooSmallForEditable, RoomOf;
  }

  /** Every candidate is charged the same completion and reserve. */
  ghost predicate OneReserve(r: Request) {
    forall a, b :: r.reserveOf(a) == r.reserveOf(b)
  }

  /** One reserve for all is enough: room then follows the window. */
  lemma OneReserveHasMostRoom(r: Request)
    requires MonotoneCap(r.cfg) && OneReserve(r) && r.completion + r.reserveOf(r.agent) >= 0
    ensures PickHasMostRoom(r)
  {
    var chain := r.Chain();
    forall k: nat, cand | IsPick(r, k) && Eligible(r, cand) && Known(r, cand)
      ensures RoomOf(r, cand) <= if Known(r, chain[k]) then RoomOf(r, chain[k]) else 0
    {
      var i := PlaceInChain(r, cand);
      var completion := r.completion + r.reserveOf(r.agent);
      assert r.reserveOf(chain[i]) == r.reserveOf(r.agent) == r.reserveOf(chain[k]);
      assert Key(r, chain[i]) <= Key(r, chain[k]);
      assert r.cfg.cap(Key(r, chain[i])) <= r.cfg.cap(Key(r, chain[k]));
      MulMonotone(r.cfg.cap(Key(r, chain[i])) - completion, r.cfg.cap(Key(r, chain[k])) - completion,
                  r.cfg.charsPerToken);
      MulMonotone(r.cfg.cap(0) - completion, 0, r.cfg.charsPerToken);
    }
  }

  lemma MulMonotone(a: int, b: int, k: Positive)
    ensures a <= b ==> a * k <= b * k
  {
  }

  // ----- when a dispatch is refused because the prompt is too large

  /** Tokens a known window leaves after the completion and the reserve. */
  function SpareOf(r: Request, cand: Option<string>): int
    requires Known(r, cand)
  {
    r.cfg.cap(r.windowOf(cand).value) - (r.completion + r.reserveOf(cand))
  }

  /** The prompt's fixed part, with no file section at all, fits the candidate's window. */
  predicate FixedFits(r: Request, cand: Option<string>)
    requires Known(r, cand)
  {
    r.fixed / r.cfg.charsPerToken <= SpareOf(r, cand)
  }

  /** The search settles on `k`, whose plan keeps the editable files and still does not fit. */
  predicate DoesNotFit(r: Request, k: nat) {
    && IsPick(r, k) && r.PlanFor(r.Chain()[k]).Dropped(SECTION_EDITABLE) == []
    && Known(r, r.Chain()[k]) && !FixedFits(r, r.Chain()[k])
  }

  ghost predicate NoneFits(r: Request) {
    forall cand :: Eligible(r, cand) && Known(r, cand) ==> !FixedFits(r, cand)
  }

  predicate RefusedAsTooLarge(r: Request) {
    DispatchPlan(r).Refused? && DispatchPlan(r).refusal.PromptTooLarge?
  }

  /** Refused as too large: no candidate is whole, and the pick drops no editable file but does not fit. */
  lemma PromptTooLargeIff(r: Request)
    requires Distinct(r.sections)
    ensures RefusedAsTooLarge(r)
            <==> !SomeWhole(r) && exists k: nat :: DoesNotFit(r, k)
  {
    hide AllocationPlan, DispatchPlan, IsPick, Listing, FixedFits, SomeWhole;
    var k := DispatchConcludes(r);
    if !SomeWhole(r) {
      PlanFitsIff(r, r.Chain()[k]);
      assert RefusedAsTooLarge(r) <==> DoesNotFit(r, k);
      forall j: nat | IsPick(r, j) ensures j == k {
        OnePick(r, j, k);
      }
    }
  }

  lemma PlanFitsIff(r: Request, cand: Option<string>)
    requires Distinct(r.sections)
    ensures r.PlanFor(cand).Fits(r.cfg) <==> (Known(r, cand) ==> FixedFits(r, cand))
  {
    hide KnownWindowGrants;
    if Known(r, cand) {
      FitsIffFixedPartFits(r.cfg, r.sections, r.fixed, r.windowOf(cand).value, r.completion + r.reserveOf(cand), cand);
    }
  }

  ghost predicate TooLargeJustified(r: Request, fixed: nat, sections: seq<Section>) {
    var asked := r.(fixed := fixed, sections := sections);
    Distinct(sections) && RefusedAsTooLarge(asked) ==> NoneFits(asked)
  }

  /** No known window leaves more tokens than a known pick's, unless it leaves none. */
  ghost predicate PickHasMostSpare(r: Request) {
    forall k: nat, cand :: IsPick(r, k) && Known(r, r.Chain()[k]) && Eligible(r, cand) && Known(r, cand) ==>
      SpareOf(r, cand) < 0 || SpareOf(r, cand) <= SpareOf(r, r.Chain()[k])
  }

  /** A fixed part that fills candidate `cand` exactly, and more besides than any window holds. */
  lemma MoreSpareIsRefused(r: Request, k: nat, cand: Option<string>) returns (fixed: nat, sections: seq<Section>)
    requires IsPick(r, k) && Known(r, r.Chain()[k]) && Eligible(r, cand) && Known(r, cand)
    requires SpareOf(r, cand) >= 0 && SpareOf(r, cand) > SpareOf(r, r.Chain()[k])
    ensures !TooLargeJustified(r, fixed, sections)
  {
    hide AllocationPlan, RefusedAsTooLarge, Crowd;
    var spare: nat, c := SpareOf(r, cand), r.cfg.charsPerToken;
    MulMonotone(0, spare, c);
    fixed := spare * c;
    assert fixed / c == spare by { WholeQuotient(spare, c); }
    var n := BeyondAll(r.(fixed := fixed), r.Chain());
    sections := [Crowd(n)];
    var asked := r.(fixed := fixed, sections := sections);
    assert asked.Chain() == r.Chain();
    CrowdedList(Section(SECTION_EDITABLE, [], None), n);
    forall j | 0 <= j < |asked.Chain()| ensures !asked.Whole(asked.Chain()[j]) {
      CrowdedIsNotWhole(asked, n, 0, j);
    }
    OnlyCrowd(asked, n, asked.Chain()[k]);
    assert DoesNotFit(asked, k);
    PromptTooLargeIff(asked);
    assert FixedFits(asked, cand) && Eligible(asked, cand);
    hide FixedFits;
    assert !NoneFits(asked);
  }

  lemma WholeQuotient(n: nat, k: Positive)
    ensures n * k / k == n
  {
    var q := n * k / k;
    assert q * k <= n * k < (q + 1) * k;
    if q < n {
      MulMonotone(q + 1, n, k);
    } else if q > n {
      MulMonotone(n + 1, q, k);
    }
  }

  lemma OnlyCrowd(r: Request, n: nat, cand: Option<string>)
    requires r.sections == [Crowd(n)] && Known(r, cand) && Distinct(r.sections)
    ensures r.PlanFor(cand).Dropped(SECTION_EDITABLE) == []
  {
    hide KnownWindowGrants;
    KnownWindowTotal(r.cfg, r.sections, RoomOf(r, cand));
    var ss := WithholdAll(r.cfg, r.sections);
    assert ss[1..] == [] && ss[0].name == "prior" && NameSet(ss) == {"prior"};
    assert SECTION_EDITABLE[0] == 'e' && "prior"[0] == 'p';
  }

  lemma TooLargeIsJustified(r: Request, fixed: nat, sections: seq<Section>)
    requires PickHasMostSpare(r)
    ensures TooLargeJustified(r, fixed, sections)
  {
    hide AllocationPlan, RefusedAsTooLarge, SomeWhole, Distinct;
    var asked := r.(fixed := fixed, sections := sections);
    assert asked.Chain() == r.Chain();
    if Distinct(sections) && RefusedAsTooLarge(asked) {
      PromptTooLargeIff(asked);
      var k: nat :| DoesNotFit(asked, k);
      assert IsPick(r, k);
      forall cand | Eligible(asked, cand) && Known(asked, cand) ensures !FixedFits(asked, cand) {
        assert Eligible(r, cand) && Known(r, cand);
      }
    }
  }

  /**
   Every prompt refused as too large fits no known window, whatever its fixed part and its sections, if and
   only if no known window leaves more tokens than the one the search settles on.
   */
  lemma TooLargeRefusalsJustifiedIff(r: Request)
    ensures (forall fixed: nat, sections :: TooLargeJustified(r, fixed, sections)) <==> PickHasMostSpare(r)
  {
    if PickHasMostSpare(r) {
      forall fixed: nat, sections ensures TooLargeJustified(r, fixed, sections) {
        TooLargeIsJustified(r, fixed, sections);
      }
    } else {
      var k: nat, cand :| IsPick(r, k) && Known(r, r.Chain()[k]) && Eligible(r, cand) && Known(r, cand)
        && SpareOf(r, cand) >= 0 && SpareOf(r, cand) > SpareOf(r, r.Chain()[k]);
      var fixed, sections := MoreSpareIsRefused(r, k, cand);
    }
  }

  // ----- a request of the failing family

  /** A small window that can show the one editable file, and a larger one whose reserve takes all of it. */
  function UnequalReserves(): Request {
    Request(Config(1, (w: int) => w, (path: string) => false),
            [Section(SECTION_EDITABLE, [File("e", "x")], None), Section("prior", [File("p", "xxx")], None)],
            0, 0, Some("small"), ["big"],
            (c: Option<string>) => if c == Some("big") then Some(3) else Some(2),
            (c: Option<string>) => if c == Some("big") then 3 else 0)
  }

  lemma UnequalReservesSections()
    ensures var r := UnequalReserves();
            && Distinct(r.sections) && r.Chain() == [Some("small"), Some("big")]
            && TotalChars(r.sections[0].files) == 1
            && WantedBy(WithholdAll(r.cfg, r.sections)) == 4
  {
    var r := UnequalReserves();
    var edit, prior := r.sections[0], r.sections[1];
    assert r.sections[1..] == [prior] && [prior][1..] == [];
    assert edit.name[0] == 'e' && prior.name[0] == 'p';
    assert NotNamed(edit.name, [prior]) && Distinct([prior]);
    assert "big"[0] == 'b' && "small"[0] == 's' && Others(r.agent, ["big"][1..]) == [];
    var ss := WithholdAll(r.cfg, r.sections);
    assert ss == [edit, prior] && ss[1..] == [prior];
    assert edit.files[1..] == [] && prior.files[1..] == [];
    assert edit.WantedChars() == 1 && prior.WantedChars() == 3 && WantedBy([prior]) == 3;
  }

  /**
   One reserve is needed: when the largest window also has the largest reasoning reserve, the dispatch
   refuses although a smaller window of the chain could have shown the whole editable set.
   */
  lemma UnequalReservesRefuseTooMuch()
    ensures var r := UnequalReserves();
            && EditableFirst(r.sections) && MonotoneCap(r.cfg) && Known(r, r.agent)
            && DispatchPlan(r).Refused? && DispatchPlan(r).refusal.EditableFileTooLarge?
            && !TooSmallForEditable(r, r.agent)
  {
    hide AllocationPlan, TotalChars, WantedBy, Distinct, Listing;
    UnequalReservesSections();
    var r := UnequalReserves();
    var small, big := Some("small"), Some("big");
    assert "small" != "big" by {
      assert "big"[0] == 'b' && "small"[0] == 's';
    }
    DropsNothingIff(r.cfg, r.sections, 0, 2, 0, small);
    DropsNothingIff(r.cfg, r.sections, 0, 3, 3, big);
    EditableDroppedIff(r, big);
    assert !r.Whole(small) && !r.Whole(big);
    assert [small, big][1..] == [big] && [big][1..] == [];
    var best := Some(Better(None, r.PlanFor(small)));
    assert Search(r, [small, big], None) == Search(r, [big], best);
    assert Search(r, [big], best) == (false, Some(r.PlanFor(big)));
  }
}
