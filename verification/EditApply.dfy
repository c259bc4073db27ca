/**
 Applying SEARCH/REPLACE blocks to a file: a ladder of four ways to find the SEARCH text, each tried only
 when the one before found nothing, and each refusing when it finds more than one place.
 */
module EditApply {
  import opened Options
  import opened EditText
  import opened EditParser
  import Sorting

  datatype Tier = Exact | TrailingWs | Indent | Fuzzy

  datatype Reason = EmptySearch | NotFound | Ambiguous

  datatype AppliedBlock = AppliedBlock(index: nat, tier: Tier, ratio: real, line: Option<nat>)

  datatype ApplyResult =
    | Landed(content: string, applied: seq<AppliedBlock>)
    | Failed(failedIndex: nat, failedBlock: EditBlock, reason: Reason, applied: seq<AppliedBlock>)

  /** What one block does to the content. */
  datatype BlockOutcome =
    | Hit(content: string, tier: Tier, ratio: real, line: Option<nat>)
    | Miss(reason: Reason)

  // ----- substrings: `str.find`, `str.count` and `str.replace` with a count of one

  predicate OccursAt(content: string, search: string, p: nat) {
    p + |search| <= |content| && content[p..p + |search|] == search
  }

  /** The first occurrence at or after `from`. */
  function FindFrom(content: string, search: string, from: nat): (p: Option<nat>)
    ensures p.Some? ==> from <= p.value && OccursAt(content, search, p.value)
    ensures p.Some? ==> forall q :: from <= q < p.value ==> !OccursAt(content, search, q)
    ensures p.None? ==> forall q :: from <= q ==> !OccursAt(content, search, q)
    decreases |content| - from
  {
    if from + |search| > |content| then None
    else if content[from..from + |search|] == search then Some(from)
    else FindFrom(content, search, from + 1)
  }

  /** Occurrences that do not overlap, counted from the left. */
  function CountFrom(content: string, search: string, from: nat): nat
    requires search != ""
    decreases |content| - from
  {
    var p := FindFrom(content, search, from);
    if p.None? then 0 else 1 + CountFrom(content, search, p.value + |search|)
  }

  function ReplaceAt(content: string, search: string, replace: string, p: nat): string
    requires OccursAt(content, search, p)
  {
    content[..p] + replace + content[p + |search|..]
  }

  // ----- indentation

  function CommonPrefix(a: string, b: string): (p: string)
    ensures p <= a && p <= b
    ensures |p| < |a| && |p| < |b| ==> a[|p|] != b[|p|]
  {
    if a != "" && b != "" && a[0] == b[0] then [a[0]] + CommonPrefix(a[1..], b[1..]) else ""
  }

  function NonBlank(lines: seq<string>): seq<string> {
    if lines == [] then []
    else (if BlankLine(lines[0]) then [] else [lines[0]]) + NonBlank(lines[1..])
  }

  function SharedWith(prefix: string, lines: seq<string>): string
    decreases |lines|
  {
    if lines == [] then prefix else SharedWith(CommonPrefix(prefix, LeadingWs(lines[0])), lines[1..])
  }

  /** The whitespace every non-blank line starts with. */
  function CommonIndent(lines: seq<string>): string {
    var nonblank := NonBlank(lines);
    if nonblank == [] then "" else SharedWith(LeadingWs(nonblank[0]), nonblank[1..])
  }

  method FindCommonIndent(lines: seq<string>) returns (prefix: string)
    ensures prefix == CommonIndent(lines)
  {
    hide LeadingWs, CommonPrefix;
    var nonblank := NonBlank(lines);
    if nonblank == [] {
      return "";
    }
    prefix := LeadingWs(nonblank[0]);
    var i := 1;
    while i < |nonblank|
      invariant 1 <= i <= |nonblank|
      invariant SharedWith(prefix, nonblank[i..]) == CommonIndent(lines)
    {
      var ws := LeadingWs(nonblank[i]);
      var k := 0;
      while k < |prefix| && k < |ws| && prefix[k] == ws[k]
        invariant k <= |prefix| && k <= |ws| && prefix[..k] == ws[..k]
      {
        k := k + 1;
      }
      CommonPrefixIs(prefix, ws, k);
      assert nonblank[i..][1..] == nonblank[i + 1..];
      prefix := prefix[..k];
      i := i + 1;
      if prefix == "" {
        SharedWithNothing(nonblank[i..]);
        return;
      }
    }
  }

  lemma {:induction false} CommonPrefixIs(a: string, b: string, k: nat)
    requires k <= |a| && k <= |b| && a[..k] == b[..k]
    requires k < |a| && k < |b| ==> a[k] != b[k]
    ensures CommonPrefix(a, b) == a[..k]
  {
    if k > 0 {
      assert a[0] == a[..k][0] && b[0] == b[..k][0];
      assert a[1..][..k - 1] == a[..k][1..] && b[1..][..k - 1] == b[..k][1..];
      CommonPrefixIs(a[1..], b[1..], k - 1);
    }
  }

  lemma {:induction false} SharedWithNothing(lines: seq<string>)
    ensures SharedWith("", lines) == ""
  {
    if lines != [] {
      assert CommonPrefix("", LeadingWs(lines[0])) == "";
      SharedWithNothing(lines[1..]);
    }
  }

  function DedentLine(line: string, prefix: string): string {
    if prefix <= line then line[|prefix|..] else line
  }

  function Dedent(lines: seq<string>, prefix: string): (r: seq<string>)
    ensures |r| == |lines| && forall j :: 0 <= j < |lines| ==> r[j] == DedentLine(lines[j], prefix)
  {
    if prefix == "" then lines else seq(|lines|, j requires 0 <= j < |lines| => DedentLine(lines[j], prefix))
  }

  function ReindentLine(line: string, was: string, now: string): string {
    if BlankLine(line) then line
    else if was != "" && was <= line then now + line[|was|..]
    else if was == "" then now + line
    else line
  }

  /** REPLACE lines moved from the SEARCH's indentation to the window's. */
  function ReindentLines(lines: seq<string>, was: string, now: string): (r: seq<string>)
    ensures |r| == |lines| && forall j :: 0 <= j < |lines| ==> r[j] == ReindentLine(lines[j], was, now)
  {
    seq(|lines|, j requires 0 <= j < |lines| => ReindentLine(lines[j], was, now))
  }

  method Reindent(lines: seq<string>, was: string, now: string) returns (out: seq<string>)
    ensures out == ReindentLines(lines, was, now)
  {
    out := [];
    for i := 0 to |lines|
      invariant |out| == i && forall j :: 0 <= j < i ==> out[j] == ReindentLine(lines[j], was, now)
    {
      var line := lines[i];
      if BlankLine(line) {
        out := out + [line];
      } else if was != "" && was <= line {
        out := out + [now + line[|was|..]];
      } else if was == "" {
        out := out + [now + line];
      } else {
        out := out + [line];
      }
    }
  }

  // ----- line windows

  /** The window of `lines` at `i` equals the search, trailing whitespace aside. */
  predicate TrailMatch(lines: seq<string>, search: seq<string>, i: nat) {
    i + |search| <= |lines| && forall j :: 0 <= j < |search| ==> RStrip(lines[i + j]) == RStrip(search[j])
  }

  /** The window equals the search once each is dedented to its own common indent. */
  predicate IndentMatch(lines: seq<string>, search: seq<string>, i: nat) {
    i + |search| <= |lines| &&
    var window := lines[i..i + |search|];
    forall j :: 0 <= j < |search| ==>
      RStrip(DedentLine(window[j], CommonIndent(window))) == RStrip(DedentLine(search[j], CommonIndent(search)))
  }

  predicate Matches(tier: Tier, lines: seq<string>, search: seq<string>, i: nat) {
    if tier == TrailingWs then TrailMatch(lines, search, i) else IndentMatch(lines, search, i)
  }

  /** The starts below `n` of the windows that match, in order. */
  function HitsBelow(tier: Tier, lines: seq<string>, search: seq<string>, n: nat): seq<nat> {
    if n == 0 then []
    else HitsBelow(tier, lines, search, n - 1) + if Matches(tier, lines, search, n - 1) then [n - 1] else []
  }

  function Hits(tier: Tier, lines: seq<string>, search: seq<string>): seq<nat> {
    HitsBelow(tier, lines, search, Max(0, |lines| - |search| + 1))
  }

  method WindowsEqual(lines: seq<string>, target: seq<string>, ghost search: seq<string>) returns (hits: seq<nat>)
    requires |target| == |search| && forall j :: 0 <= j < |search| ==> target[j] == RStrip(search[j])
    ensures hits == Hits(TrailingWs, lines, search)
  {
    hide RStrip;
    hits := [];
    for i := 0 to Max(0, |lines| - |target| + 1)
      invariant hits == HitsBelow(TrailingWs, lines, search, i)
    {
      var j, equal := 0, true;
      while j < |target| && equal
        invariant 0 <= j <= |target|
        invariant equal ==> forall k :: 0 <= k < j ==> RStrip(lines[i + k]) == target[k]
        invariant !equal ==> !TrailMatch(lines, search, i)
        decreases |target| - j, equal
      {
        if RStrip(lines[i + j]) != target[j] {
          equal := false;
        } else {
          j := j + 1;
        }
      }
      if equal {
        hits := hits + [i];
      }
    }
  }

  /** Comparing a window and the search line by line, each dedented, is the tier's match. */
  lemma DedentedMatches(lines: seq<string>, search: seq<string>, i: nat)
    requires i + |search| <= |lines|
    ensures var window := lines[i..i + |search|];
      var dedented, dedentedSearch := Dedent(window, CommonIndent(window)), Dedent(search, CommonIndent(search));
      (forall j :: 0 <= j < |search| ==> RStrip(dedented[j]) == RStrip(dedentedSearch[j]))
      <==> Matches(Indent, lines, search, i)
  {
    hide RStrip, CommonIndent, DedentLine, Dedent;
    var window := lines[i..i + |search|];
    var dedented, dedentedSearch := Dedent(window, CommonIndent(window)), Dedent(search, CommonIndent(search));
    forall j | 0 <= j < |search|
      ensures dedented[j] == DedentLine(window[j], CommonIndent(window))
      ensures dedentedSearch[j] == DedentLine(search[j], CommonIndent(search))
    {
    }
  }

  method IndentRelativeWindows(lines: seq<string>, search: seq<string>) returns (hits: seq<nat>)
    ensures hits == Hits(Indent, lines, search)
  {
    hide RStrip, CommonIndent, DedentLine, Dedent, Matches;
    var searchIndent := FindCommonIndent(search);
    var dedentedSearch := Dedent(search, searchIndent);
    hits := [];
    for i := 0 to Max(0, |lines| - |search| + 1)
      invariant hits == HitsBelow(Indent, lines, search, i)
    {
      var window := lines[i..i + |search|];
      var indent := FindCommonIndent(window);
      var dedented := Dedent(window, indent);
      DedentedMatches(lines, search, i);
      if forall j :: 0 <= j < |search| ==> RStrip(dedented[j]) == RStrip(dedentedSearch[j]) {
        hits := hits + [i];
      }
    }
  }

  function Splice(content: string, start: nat, size: nat, replacement: seq<string>): string
    requires start + size <= |Split(content)|
  {
    var lines := Split(content);
    Join(lines[..start] + replacement + lines[start + size..])
  }

  lemma {:induction false} HitsMatch(tier: Tier, lines: seq<string>, search: seq<string>, n: nat, i: nat)
    ensures i in HitsBelow(tier, lines, search, n) <==> i < n && Matches(tier, lines, search, i)
  {
    hide Matches;
    if n > 0 {
      HitsMatch(tier, lines, search, n - 1, i);
    }
  }

  lemma {:induction false} HitsAscend(tier: Tier, lines: seq<string>, search: seq<string>, n: nat)
    ensures Ascending(HitsBelow(tier, lines, search, n), n)
  {
    hide Matches;
    if n > 0 {
      HitsAscend(tier, lines, search, n - 1);
      var before := HitsBelow(tier, lines, search, n - 1);
      assert Ascending(before + [n - 1], n);
    }
  }

  /** A tier's hits are exactly the windows that match, each once. */
  lemma HitsAreTheMatches(tier: Tier, lines: seq<string>, search: seq<string>, i: nat)
    requires search != []
    ensures i in Hits(tier, lines, search) <==> Matches(tier, lines, search, i)
    ensures Ascending(Hits(tier, lines, search), Max(0, |lines| - |search| + 1))
  {
    MatchIsInside(tier, lines, search, i);
    hide Matches, HitsBelow;
    HitsMatch(tier, lines, search, Max(0, |lines| - |search| + 1), i);
    HitsAscend(tier, lines, search, Max(0, |lines| - |search| + 1));
  }

  lemma MatchIsInside(tier: Tier, lines: seq<string>, search: seq<string>, i: nat)
    ensures Matches(tier, lines, search, i) ==> i + |search| <= |lines|
  {
  }

  // ----- the similarity tier

  /** `difflib`'s ratio and the two cheaper bounds that gate it. */
  datatype Similarity = Similarity(
    ratio: (string, string) -> real, quick: (string, string) -> real, realQuick: (string, string) -> real)

  ghost predicate Sound(sim: Similarity) {
    forall a: string, b: string ::
      0.0 <= sim.ratio(a, b) <= 1.0 && sim.ratio(a, b) <= sim.quick(a, b) && sim.ratio(a, b) <= sim.realQuick(a, b)
  }

  const FUZZY_RATIO := 0.93
  const FUZZY_RATIO_LARGE := 0.95
  const FUZZY_LARGE_FILE_LINES := 2000
  const FUZZY_MARGIN := 0.02
  const FUZZY_MIN_LINES := 3
  const FUZZY_SIZE_SLACK_MIN_LINES := 6

  datatype Cand = Cand(ratio: real, start: nat, size: nat)

  function Sizes(n: nat): seq<nat> {
    if n >= FUZZY_SIZE_SLACK_MIN_LINES then [n - 1, n, n + 1] else [n]
  }

  /** How similar the window is to the search, trailing whitespace aside. */
  function WindowRatio(sim: Similarity, lines: seq<string>, search: seq<string>, start: nat, size: nat): real
    requires start + size <= |lines|
  {
    sim.ratio(Join(StripEach(lines)[start..start + size]), Join(StripEach(search)))
  }

  /** The windows of one size below `n` at or above the threshold. */
  function CandsBelow(sim: Similarity, lines: seq<string>, search: seq<string>, threshold: real, size: nat, n: nat)
    : seq<Cand>
    requires n > 0 ==> n - 1 + size <= |lines|
  {
    if n == 0 then []
    else
      var r := WindowRatio(sim, lines, search, n - 1, size);
      CandsBelow(sim, lines, search, threshold, size, n - 1) + if r >= threshold then [Cand(r, n - 1, size)] else []
  }

  function CandsOver(sim: Similarity, lines: seq<string>, search: seq<string>, threshold: real, sizes: seq<nat>)
    : seq<Cand>
  {
    if sizes == [] then []
    else
      CandsBelow(sim, lines, search, threshold, sizes[0], Max(0, |lines| - sizes[0] + 1))
      + CandsOver(sim, lines, search, threshold, sizes[1..])
  }

  /** The windows of one size; the bounds only skip windows that could not have scored. */
  method WindowsOfSize(sim: Similarity, lines: seq<string>, search: seq<string>, threshold: real, size: nat)
    returns (cands: seq<Cand>)
    requires Sound(sim)
    ensures cands == CandsBelow(sim, lines, search, threshold, size, Max(0, |lines| - size + 1))
  {
    hide Join, RStrip;
    var target, stripped := Join(StripEach(search)), StripEach(lines);
    cands := [];
    for i := 0 to Max(0, |stripped| - size + 1)
      invariant cands == CandsBelow(sim, lines, search, threshold, size, i)
    {
      var window := Join(stripped[i..i + size]);
      assert 0.0 <= sim.ratio(window, target) <= 1.0;
      if sim.realQuick(window, target) < threshold || sim.quick(window, target) < threshold {
        continue;
      }
      var r := sim.ratio(window, target);
      if r >= threshold {
        cands := cands + [Cand(r, i, size)];
      }
    }
  }

  method FuzzyWindows(sim: Similarity, lines: seq<string>, search: seq<string>, threshold: real)
    returns (cands: seq<Cand>)
    requires Sound(sim)
    ensures cands == CandsOver(sim, lines, search, threshold, Sizes(|search|))
  {
    hide CandsBelow, Sound, Sizes;
    var sizes := Sizes(|search|);
    cands := [];
    assert sizes[0..] == sizes;
    for k := 0 to |sizes|
      invariant cands + CandsOver(sim, lines, search, threshold, sizes[k..])
             == CandsOver(sim, lines, search, threshold, sizes)
    {
      assert sizes[k..][0] == sizes[k] && sizes[k..][1..] == sizes[k + 1..];
      var more := WindowsOfSize(sim, lines, search, threshold, sizes[k]);
      cands := cands + more;
    }
  }

  /** The order of the sort key: higher ratio first, then earlier start. */
  predicate Ahead(a: Cand, b: Cand) {
    a.ratio > b.ratio || (a.ratio == b.ratio && a.start < b.start)
  }

  function Sorted(cands: seq<Cand>): seq<Cand> {
    Sorting.Sort(Ahead, cands)
  }

  predicate Overlaps(a: Cand, b: Cand) {
    a.start < b.start + b.size && b.start < a.start + a.size
  }

  function Rivals(best: Cand, cands: seq<Cand>): seq<Cand> {
    if cands == [] then []
    else (if Overlaps(best, cands[0]) then [] else [cands[0]]) + Rivals(best, cands[1..])
  }

  // ----- one block

  function Threshold(lines: seq<string>): real {
    if |lines| > FUZZY_LARGE_FILE_LINES then FUZZY_RATIO_LARGE else FUZZY_RATIO
  }

  function ReplaceLines(block: EditBlock): seq<string> {
    if block.replace != "" then Split(block.replace) else []
  }

  lemma {:induction false} CandsFit(sim: Similarity, lines: seq<string>, search: seq<string>, threshold: real,
                                    size: nat, n: nat, c: Cand)
    requires n > 0 ==> n - 1 + size <= |lines|
    ensures c in CandsBelow(sim, lines, search, threshold, size, n) <==>
            c.size == size && c.start < n && c.start + size <= |lines| &&
            c.ratio == WindowRatio(sim, lines, search, c.start, size) && c.ratio >= threshold
  {
    hide WindowRatio;
    if n > 0 {
      CandsFit(sim, lines, search, threshold, size, n - 1, c);
    }
  }

  /** The candidates are exactly the windows, of the sizes allowed, that reach the threshold. */
  lemma {:induction false} CandsAreTheWindows(sim: Similarity, lines: seq<string>, search: seq<string>,
                                              threshold: real, sizes: seq<nat>, c: Cand)
    ensures c in CandsOver(sim, lines, search, threshold, sizes) <==>
            c.size in sizes && c.start + c.size <= |lines| &&
            c.ratio == WindowRatio(sim, lines, search, c.start, c.size) && c.ratio >= threshold
  {
    hide WindowRatio;
    if sizes != [] {
      CandsFit(sim, lines, search, threshold, sizes[0], Max(0, |lines| - sizes[0] + 1), c);
      CandsAreTheWindows(sim, lines, search, threshold, sizes[1..], c);
    }
  }

  lemma SortKeeps(cands: seq<Cand>, x: Cand)
    ensures x in Sorted(cands) <==> x in cands
  {
    Sorting.SortKeeps(Ahead, cands, x);
  }

  function FuzzyOutcome(sim: Similarity, content: string, block: EditBlock): BlockOutcome {
    var lines, search := Split(content), Split(block.search);
    if |search| < FUZZY_MIN_LINES then Miss(NotFound)
    else
      var cands := Sorted(CandsOver(sim, lines, search, Threshold(lines), Sizes(|search|)));
      if cands == [] then Miss(NotFound)
      else
        var best, rivals := cands[0], Rivals(cands[0], cands[1..]);
        SortKeeps(CandsOver(sim, lines, search, Threshold(lines), Sizes(|search|)), best);
        CandsAreTheWindows(sim, lines, search, Threshold(lines), Sizes(|search|), best);
        if rivals != [] && best.ratio - rivals[0].ratio < FUZZY_MARGIN then Miss(Ambiguous)
        else
          Hit(Splice(content, best.start, best.size, ReplaceLines(block)), Fuzzy, best.ratio, Some(best.start + 1))
  }

  function IndentOutcome(sim: Similarity, content: string, block: EditBlock): BlockOutcome {
    var lines, search := Split(content), Split(block.search);
    var hits := Hits(Indent, lines, search);
    if |hits| > 1 then Miss(Ambiguous)
    else if |hits| == 1 then
      HitsAreTheMatches(Indent, lines, search, hits[0]);
      var window := lines[hits[0]..hits[0] + |search|];
      var moved := ReindentLines(ReplaceLines(block), CommonIndent(search), CommonIndent(window));
      Hit(Splice(content, hits[0], |search|, moved), Indent, 1.0, Some(hits[0] + 1))
    else FuzzyOutcome(sim, content, block)
  }

  function TrailingOutcome(sim: Similarity, content: string, block: EditBlock): BlockOutcome {
    var lines, search := Split(content), Split(block.search);
    var hits := Hits(TrailingWs, lines, search);
    if |hits| > 1 then Miss(Ambiguous)
    else if |hits| == 1 then
      HitsAreTheMatches(TrailingWs, lines, search, hits[0]);
      Hit(Splice(content, hits[0], |search|, ReplaceLines(block)), TrailingWs, 1.0, Some(hits[0] + 1))
    else IndentOutcome(sim, content, block)
  }

  /** The ladder. */
  function Outcome(sim: Similarity, content: string, block: EditBlock): BlockOutcome {
    if block.search == "" then Miss(EmptySearch)
    else
      var count := CountFrom(content, block.search, 0);
      if count == 1 then
        var p := FindFrom(content, block.search, 0).value;
        Hit(ReplaceAt(content, block.search, block.replace, p), Exact, 1.0, None)
      else if count > 1 then Miss(Ambiguous)
      else TrailingOutcome(sim, content, block)
  }

  method ApplyBlock(sim: Similarity, content: string, block: EditBlock) returns (r: BlockOutcome)
    requires Sound(sim)
    ensures r == Outcome(sim, content, block)
  {
    hide Split, Hits, CandsOver, Sorted, CommonIndent, CountFrom, Sound, Sizes;
    if block.search == "" {
      return Miss(EmptySearch);
    }
    var count := CountFrom(content, block.search, 0);
    if count == 1 {
      FoundWhenCounted(content, block.search);
      var p := FindFrom(content, block.search, 0).value;
      return Hit(ReplaceAt(content, block.search, block.replace, p), Exact, 1.0, None);
    }
    if count > 1 {
      return Miss(Ambiguous);
    }
    var lines, search, replacement := Split(content), Split(block.search), ReplaceLines(block);
    var hits := WindowsEqual(lines, StripEach(search), search);
    if |hits| > 1 {
      return Miss(Ambiguous);
    }
    if |hits| == 1 {
      HitsAreTheMatches(TrailingWs, lines, search, hits[0]);
      return Hit(Splice(content, hits[0], |search|, replacement), TrailingWs, 1.0, Some(hits[0] + 1));
    }
    hits := IndentRelativeWindows(lines, search);
    if |hits| > 1 {
      return Miss(Ambiguous);
    }
    if |hits| == 1 {
      HitsAreTheMatches(Indent, lines, search, hits[0]);
      var window := lines[hits[0]..hits[0] + |search|];
      var searchIndent := FindCommonIndent(search);
      var windowIndent := FindCommonIndent(window);
      var moved := Reindent(replacement, searchIndent, windowIndent);
      return Hit(Splice(content, hits[0], |search|, moved), Indent, 1.0, Some(hits[0] + 1));
    }
    r := ApplyFuzzy(sim, content, block);
  }

  lemma FoundWhenCounted(content: string, search: string)
    requires search != "" && CountFrom(content, search, 0) > 0
    ensures FindFrom(content, search, 0).Some?
  {
  }

  method ApplyFuzzy(sim: Similarity, content: string, block: EditBlock) returns (r: BlockOutcome)
    requires Sound(sim)
    ensures r == FuzzyOutcome(sim, content, block)
  {
    hide Split, CandsOver, Sorted, Sound, Sizes;
    var lines, search := Split(content), Split(block.search);
    if |search| < FUZZY_MIN_LINES {
      return Miss(NotFound);
    }
    var threshold := Threshold(lines);
    var found := FuzzyWindows(sim, lines, search, threshold);
    var cands := Sorted(found);
    if cands == [] {
      return Miss(NotFound);
    }
    var best, rivals := cands[0], Rivals(cands[0], cands[1..]);
    SortKeeps(found, best);
    CandsAreTheWindows(sim, lines, search, threshold, Sizes(|search|), best);
    if rivals != [] && best.ratio - rivals[0].ratio < FUZZY_MARGIN {
      return Miss(Ambiguous);
    }
    r := Hit(Splice(content, best.start, best.size, ReplaceLines(block)), Fuzzy, best.ratio, Some(best.start + 1));
  }

  // ----- all the blocks of a file

  function ApplyFrom(sim: Similarity, content: string, blocks: seq<EditBlock>, k: nat, applied: seq<AppliedBlock>)
    : ApplyResult
    requires k <= |blocks|
    decreases |blocks| - k
  {
    if k == |blocks| then Landed(content, applied)
    else
      match Outcome(sim, content, blocks[k])
      case Miss(reason) => Failed(k + 1, blocks[k], reason, applied)
      case Hit(next, tier, ratio, line) =>
        ApplyFrom(sim, next, blocks, k + 1, applied + [AppliedBlock(k + 1, tier, ratio, line)])
  }

  method ApplySearchReplace(sim: Similarity, current: string, blocks: seq<EditBlock>) returns (r: ApplyResult)
    requires Sound(sim)
    ensures r == ApplyFrom(sim, current, blocks, 0, [])
  {
    hide Outcome, Sound;
    if blocks == [] {
      return Landed(current, []);
    }
    var content, applied: seq<AppliedBlock> := current, [];
    for k := 0 to |blocks|
      invariant ApplyFrom(sim, content, blocks, k, applied) == ApplyFrom(sim, current, blocks, 0, [])
    {
      var outcome := ApplyBlock(sim, content, blocks[k]);
      match outcome {
        case Miss(reason) =>
          return Failed(k + 1, blocks[k], reason, applied);
        case Hit(next, tier, ratio, line) =>
          content := next;
          applied := applied + [AppliedBlock(k + 1, tier, ratio, line)];
      }
    }
    r := Landed(content, applied);
  }
}
