/** Which plan a dispatch hands back, and what its refusals say. */
module DispatchLaws {
  import opened Options
  import opened PromptBudget
  import opened PromptBudgetLaws
  import opened Dispatch

  lemma {:induction false} SearchStopsAtFirst(r: Request, chain: seq<Option<string>>, best: Option<Plan>, i: nat)
    requires i < |chain| && r.Whole(chain[i]) && forall j :: 0 <= j < i ==> !r.Whole(chain[j])
    ensures Search(r, chain, best) == (true, Some(r.PlanFor(chain[i])))
  {
    hide AllocationPlan, Request.Whole, Request.PlanFor;
    if i > 0 {
      SearchStopsAtFirst(r, chain[1..], Some(Better(best, r.PlanFor(chain[0]))), i - 1);
    }
  }

  /** The first whole candidate of the chain gets the dispatch. */
  lemma FirstWholeIsTaken(r: Request, i: nat)
    requires i < |r.Chain()| && r.Whole(r.Chain()[i]) && forall j :: 0 <= j < i ==> !r.Whole(r.Chain()[j])
    ensures DispatchPlan(r) == Planned(r.PlanFor(r.Chain()[i]))
  {
    hide AllocationPlan, Request.Whole, Request.PlanFor, Search;
    SearchFindsOne(r, r.Chain(), None);
    SearchStopsAtFirst(r, r.Chain(), None, i);
  }

  /** A section that an unknown window shows whole: its files are within its knob, if it has one. */
  predicate WithinKnob(cfg: Config, s: Section) {
    s.preferred.Some? ==>
      var size := TotalChars(Withhold(cfg, s).files);
      size == 0 || size <= s.preferred.value
  }

  /** Without a known window only the chosen agent can be whole, and is so when every section is within its knob. */
  lemma UnknownIsWholeIff(r: Request, cand: Option<string>)
    requires Distinct(r.sections) && r.windowOf(cand) == None
    ensures r.Whole(cand) <==> cand == r.agent && forall i :: 0 <= i < |r.sections| ==> WithinKnob(r.cfg, r.sections[i])
  {
    var p, ss := r.PlanFor(cand), WithholdAll(r.cfg, r.sections);
    forall i | 0 <= i < |r.sections|
      ensures WithinKnob(r.cfg, r.sections[i]) <==> p.Dropped(r.sections[i].name) == []
    {
      KnobDecides(r, cand, i);
    }
    PlanOrder(r.cfg, r.sections, r.fixed, None, r.completion + r.reserveOf(cand), cand);
    PlanKeys(r.cfg, r.sections, r.fixed, r.completion + r.reserveOf(cand), cand);
    hide AllocationPlan, WithinKnob;
    assert p.DroppedAny() <==> exists i :: 0 <= i < |r.sections| && p.Dropped(r.sections[i].name) != [] by {
      NamesCover(ss, r.sections, p);
    }
  }

  lemma KnobDecides(r: Request, cand: Option<string>, i: nat)
    requires Distinct(r.sections) && r.windowOf(cand) == None && i < |r.sections|
    ensures WithinKnob(r.cfg, r.sections[i]) <==> r.PlanFor(cand).Dropped(r.sections[i].name) == []
  {
    var s := Withhold(r.cfg, r.sections[i]);
    UnknownWindowAt(r.cfg, r.sections, r.fixed, r.completion + r.reserveOf(cand), cand, i);
    hide AllocationPlan, Greedy, TotalChars;
    if s.preferred.Some? {
      GreedyDropsNothingIff(s.files, if s.preferred.value < 0 then 0 else s.preferred.value);
    }
  }

  lemma {:induction false} UnboundedKeys(ss: seq<Section>, withheld: map<string, seq<string>>, d: Grants)
    ensures Unbounded(ss, withheld, d).at.Keys == d.at.Keys + NameSet(ss)
  {
    hide Granted;
    if ss != [] {
      var g := Granted(ss[0], ss[0].preferred.GetOr(ss[0].WantedChars()), WithheldAt(withheld, ss[0].name));
      UnboundedKeys(ss[1..], withheld, d.Put(ss[0].name, g));
    }
  }

  lemma PlanKeys(cfg: Config, sections: seq<Section>, fixed: nat, completion: int, agent: Option<string>)
    ensures AllocationPlan(cfg, sections, fixed, None, completion, agent).sections.at.Keys
         == NameSet(WithholdAll(cfg, sections))
  {
    UnboundedKeys(WithholdAll(cfg, sections), WithheldPaths(cfg, sections), NO_GRANTS);
  }

  lemma {:induction false} NameSetHolds(ss: seq<Section>, name: string)
    ensures name in NameSet(ss) <==> exists i :: 0 <= i < |ss| && ss[i].name == name
  {
    if ss != [] {
      NameSetHolds(ss[1..], name);
      if i :| 0 <= i < |ss| && ss[i].name == name && name != ss[0].name {
        assert ss[1..][i - 1].name == name;
      }
      if i :| 0 <= i < |ss[1..]| && ss[1..][i].name == name {
        assert ss[i + 1].name == name;
      }
    }
  }

  lemma NamesCover(ss: seq<Section>, sections: seq<Section>, p: Plan)
    requires p.sections.at.Keys == NameSet(ss) && |ss| == |sections|
    requires forall i :: 0 <= i < |ss| ==> ss[i].name == sections[i].name
    ensures p.DroppedAny() <==> exists i :: 0 <= i < |sections| && p.Dropped(sections[i].name) != []
  {
    if p.DroppedAny() {
      var name :| name in p.sections.at && p.sections.at[name].dropped != [];
      NameSetHolds(ss, name);
      var i :| 0 <= i < |ss| && ss[i].name == name;
      assert p.Dropped(sections[i].name) != [];
    }
    if i :| 0 <= i < |sections| && p.Dropped(sections[i].name) != [] {
      NameSetHolds(ss, sections[i].name);
    }
  }

  // ----- what a dispatch says when no candidate is whole

  /** The refusal lists the files of `dropped` by name. */
  predicate Lists(files: seq<(string, nat)>, dropped: seq<string>) {
    |files| == |dropped| && forall j :: 0 <= j < |files| ==> files[j].0 == dropped[j]
  }

  /**
   With no whole candidate, the plan of the one settled on decides: its dropped editable files are named, with its
   window and its agent; else the tokens it needs are named, prompt, completion and reserve, if its window does
   not take them; else the plan is handed back.
   */
  lemma UnwholeOutcome(r: Request) returns (k: nat)
    requires !SomeWhole(r)
    ensures k < |r.Chain()| && IsPick(r, k)
    ensures var cand := r.Chain()[k];
      var p := r.PlanFor(cand);
      var needed := p.PromptTokens(r.cfg) + r.completion + r.reserveOf(cand);
      match DispatchPlan(r)
      case Planned(plan) =>
        plan == p && p.Dropped(SECTION_EDITABLE) == []
        && (r.windowOf(cand).Some? ==> needed <= r.cfg.cap(r.windowOf(cand).value))
      case Refused(EditableFileTooLarge(files, window, agent)) =>
        p.Dropped(SECTION_EDITABLE) != [] && Lists(files, p.Dropped(SECTION_EDITABLE))
        && window == r.windowOf(cand) && agent == cand
      case Refused(PromptTooLarge(tokens, window)) =>
        p.Dropped(SECTION_EDITABLE) == [] && tokens == needed && window == r.windowOf(cand)
        && r.windowOf(cand).Some? && needed > r.cfg.cap(r.windowOf(cand).value)
  {
    hide AllocationPlan, SomeWhole, IsPick, DispatchPlan, Plan.PromptTokens;
    k := DispatchConcludes(r);
  }

  lemma {:induction false} SizeIsLast(files: seq<File>, m: nat)
    requires m < |files| && forall n :: m < n < |files| ==> files[n].path != files[m].path
    ensures SizeOf(files, files[m].path) == |files[m].content|
    decreases |files|
  {
    if m < |files| - 1 {
      assert files[..|files| - 1][m] == files[m];
      SizeIsLast(files[..|files| - 1], m);
    }
  }

  lemma {:induction false} NoOtherEditable(ss: seq<Section>)
    requires NotNamed(SECTION_EDITABLE, ss)
    ensures EditableFiles(ss) == []
  {
    if ss != [] {
      NoOtherEditable(ss[1..]);
    }
  }

  /** Each listed file comes with its size in whole tokens; of two with one path the later counts. */
  lemma ListedSizes(r: Request, j: nat, m: nat)
    requires EditableFirst(r.sections) && RefusedForEditable(r)
    requires j < |DispatchPlan(r).refusal.files| && m < |r.sections[0].files|
    requires var files := r.sections[0].files;
      && files[m].path == DispatchPlan(r).refusal.files[j].0
      && forall n :: m < n < |files| ==> files[n].path != files[m].path
    ensures DispatchPlan(r).refusal.files[j].1 == |r.sections[0].files[m].content| / r.cfg.charsPerToken
  {
    hide AllocationPlan;
    var k := DispatchConcludes(r);
    NoOtherEditable(r.sections[1..]);
    assert EditableFiles(r.sections) == r.sections[0].files + [] == r.sections[0].files;
    SizeIsLast(r.sections[0].files, m);
  }
}
