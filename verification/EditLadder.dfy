/**
 The ladder told without its own steps: for every content and every block, which of the four ways of finding
 the SEARCH decides, where it lands, and what stands there afterwards.
 */
module EditLadder {
  import opened Options
  import opened EditText
  import opened EditParser
  import opened EditApply
  import opened EditApplyLaws
  import Sorting

  // ----- what a line window is

  /** The window equals the search, whitespace at the line ends aside. */
  predicate SameButTrailing(lines: seq<string>, search: seq<string>, i: nat) {
    i + |search| <= |lines| && forall j :: 0 <= j < |search| ==> RStrip(lines[i + j]) == RStrip(search[j])
  }

  /** Both lines are blank, or they hold the same text after the one's indent `a` and the other's `b`. */
  predicate SameAfterIndent(x: string, a: string, y: string, b: string) {
    if BlankLine(x) || BlankLine(y) then BlankLine(x) && BlankLine(y)
    else a <= RStrip(x) && b <= RStrip(y) && RStrip(x)[|a|..] == RStrip(y)[|b|..]
  }

  /** The window and the search agree line by line, each after its own common indent. */
  predicate SameButIndent(lines: seq<string>, search: seq<string>, i: nat) {
    && i + |search| <= |lines|
    && var window := lines[i..i + |search|];
       forall j :: 0 <= j < |search| ==>
         SameAfterIndent(window[j], CommonIndent(window), search[j], CommonIndent(search))
  }

  lemma DedentedLine(line: string, w: string)
    requires AllBlank(w) && (BlankLine(line) || w <= line)
    ensures BlankLine(line) <==> BlankLine(DedentLine(line, w))
    ensures !BlankLine(line) ==> w <= RStrip(line) && RStrip(DedentLine(line, w)) == RStrip(line)[|w|..]
  {
    hide RStrip;
    if w <= line {
      IndentedLine(line, w);
    }
  }

  lemma IndentMatchIff(lines: seq<string>, search: seq<string>, i: nat)
    ensures IndentMatch(lines, search, i) <==> SameButIndent(lines, search, i)
  {
    hide RStrip, CommonIndent, DedentLine;
    if i + |search| <= |lines| {
      var window := lines[i..i + |search|];
      CommonIndentIsLongest(window, "");
      CommonIndentIsLongest(search, "");
      forall j | 0 <= j < |search|
        ensures RStrip(DedentLine(window[j], CommonIndent(window)))
             == RStrip(DedentLine(search[j], CommonIndent(search)))
           <==> SameAfterIndent(window[j], CommonIndent(window), search[j], CommonIndent(search))
      {
        DedentedLine(window[j], CommonIndent(window));
        DedentedLine(search[j], CommonIndent(search));
      }
    }
  }

  /** Where all lines are blank there is no common indent. */
  lemma BlankHasNoIndent(lines: seq<string>)
    requires forall j :: 0 <= j < |lines| ==> BlankLine(lines[j])
    ensures CommonIndent(lines) == ""
  {
    hide RStrip;
    if NonBlank(lines) != [] {
      NonBlankAre(lines, NonBlank(lines)[0]);
    }
  }

  // ----- what stands in the window afterwards

  /** The lines of a REPLACE: none when it is empty. */
  predicate IsReplacement(lines: seq<string>, replace: string) {
    if replace == "" then lines == [] else lines != [] && AllOneLine(lines) && Join(lines) == replace
  }

  /** A line moved from one indentation to another; a blank line, or one without the first, stays as it is. */
  predicate MovedLine(line: string, was: string, now: string, moved: string) {
    if BlankLine(line) || !(was <= line) then moved == line else moved == now + line[|was|..]
  }

  predicate MovedLines(lines: seq<string>, was: string, now: string, moved: seq<string>) {
    |moved| == |lines| && forall j :: 0 <= j < |lines| ==> MovedLine(lines[j], was, now, moved[j])
  }

  /** The content with `middle` in the place of `size` lines from `start`. */
  predicate Spliced(content: string, start: nat, size: nat, middle: seq<string>, result: string) {
    var lines := Split(content);
    start + size <= |lines| && result == Join(lines[..start] + middle + lines[start + size..])
  }

  lemma ReplacementIs(block: EditBlock)
    ensures IsReplacement(ReplaceLines(block), block.replace)
    ensures forall lines :: IsReplacement(lines, block.replace) ==> lines == ReplaceLines(block)
  {
    hide Split, Join;
    JoinSplit(block.replace);
    SplitYieldsLines(block.replace);
    forall lines | IsReplacement(lines, block.replace) ensures lines == ReplaceLines(block) {
      if block.replace != "" {
        SplitJoin(lines);
      }
    }
  }

  lemma MovedIs(lines: seq<string>, was: string, now: string, moved: seq<string>)
    requires MovedLines(lines, was, now, moved)
    ensures moved == ReindentLines(lines, was, now)
  {
    hide RStrip;
    forall j | 0 <= j < |lines| ensures moved[j] == ReindentLines(lines, was, now)[j] {
      assert MovedLine(lines[j], was, now, moved[j]);
      assert was == "" ==> lines[j][0..] == lines[j];
    }
  }

  // ----- which tier decides

  /** The text occurs, and everywhere it does it overlaps its first occurrence. */
  ghost predicate OnePlace(content: string, search: string, p: nat) {
    OccursAt(content, search, p) && forall q: nat :: OccursAt(content, search, q) ==> p <= q < p + |search|
  }

  /** An empty SEARCH is refused, and a SEARCH that occurs is decided by where: at one place, or refused. */
  lemma ExactDecides(sim: Similarity, content: string, block: EditBlock)
    ensures block.search == "" ==> Outcome(sim, content, block) == Miss(EmptySearch)
    ensures block.search != "" && !Nowhere(content, block.search) &&
            !(exists p: nat :: OnePlace(content, block.search, p)) ==>
              Outcome(sim, content, block) == Miss(Ambiguous)
    ensures forall p: nat :: block.search != "" && OnePlace(content, block.search, p) ==>
              Outcome(sim, content, block)
                == Hit(content[..p] + block.replace + content[p + |block.search|..], Exact, 1.0, None)
  {
    hide TrailingOutcome;
    if block.search != "" {
      CountMeans(content, block.search);
      forall p: nat | OnePlace(content, block.search, p)
        ensures CountFrom(content, block.search, 0) == 1 && FindFrom(content, block.search, 0) == Some(p)
      {
        assert FindFrom(content, block.search, 0).Some?;
        var first := FindFrom(content, block.search, 0).value;
        assert OccursAt(content, block.search, first) && OccursAt(content, block.search, p);
      }
    }
  }

  ghost predicate NoWindow(same: (seq<string>, seq<string>, nat) -> bool, lines: seq<string>, search: seq<string>) {
    forall i: nat :: !same(lines, search, i)
  }

  ghost predicate OnlyWindow(same: (seq<string>, seq<string>, nat) -> bool, lines: seq<string>, search: seq<string>,
                             i: nat) {
    same(lines, search, i) && forall k: nat :: same(lines, search, k) ==> k == i
  }

  lemma TierWindows(lines: seq<string>, search: seq<string>)
    ensures NoWindow(SameButTrailing, lines, search) <==> MatchesNone(TrailingWs, lines, search)
    ensures NoWindow(SameButIndent, lines, search) <==> MatchesNone(Indent, lines, search)
    ensures forall i: nat ::
              OnlyWindow(SameButTrailing, lines, search, i) <==> MatchesOnlyAt(TrailingWs, lines, search, i)
    ensures forall i: nat :: OnlyWindow(SameButIndent, lines, search, i) <==> MatchesOnlyAt(Indent, lines, search, i)
  {
    forall i: nat
      ensures SameButTrailing(lines, search, i) <==> Matches(TrailingWs, lines, search, i)
      ensures SameButIndent(lines, search, i) <==> Matches(Indent, lines, search, i)
    {
      IndentMatchIff(lines, search, i);
    }
    hide SameButTrailing, SameButIndent, Matches;
  }

  /** Exactly one window that is the same but for trailing whitespace: the REPLACE stands in its place. */
  lemma TrailingDecides(sim: Similarity, content: string, block: EditBlock, i: nat, middle: seq<string>,
                        result: string)
    requires block.search != "" && Nowhere(content, block.search)
    requires OnlyWindow(SameButTrailing, Split(content), Split(block.search), i)
    requires IsReplacement(middle, block.replace) && Spliced(content, i, |Split(block.search)|, middle, result)
    ensures Outcome(sim, content, block) == Hit(result, TrailingWs, 1.0, Some(i + 1))
  {
    hide Split, Join, RStrip, CommonIndent, Hits, Matches, CountFrom, OccursAt, SameButTrailing, SameButIndent;
    hide DedentLine, IndentOutcome, IsReplacement, ReplaceLines, Sound;
    var lines, search := Split(content), Split(block.search);
    TierWindows(lines, search);
    OneHit(TrailingWs, lines, search, i);
    CountMeans(content, block.search);
    ReplacementIs(block);
  }

  lemma OneHit(tier: Tier, lines: seq<string>, search: seq<string>, i: nat)
    requires search != [] && MatchesOnlyAt(tier, lines, search, i)
    ensures Hits(tier, lines, search) == [i] && i + |search| <= |lines|
  {
    HitCount(tier, lines, search);
    HitsAreTheMatches(tier, lines, search, i);
    MatchIsInside(tier, lines, search, i);
    hide Matches, Hits;
  }

  /** Exactly one window that is the same but for indentation: the REPLACE stands there, moved to its indentation. */
  lemma IndentDecides(sim: Similarity, content: string, block: EditBlock, i: nat, plain: seq<string>,
                      moved: seq<string>, result: string)
    requires block.search != "" && Nowhere(content, block.search)
    requires NoWindow(SameButTrailing, Split(content), Split(block.search))
    requires OnlyWindow(SameButIndent, Split(content), Split(block.search), i)
    requires i + |Split(block.search)| <= |Split(content)|
    requires IsReplacement(plain, block.replace)
    requires MovedLines(plain, CommonIndent(Split(block.search)),
                        CommonIndent(Split(content)[i..i + |Split(block.search)|]), moved)
    requires Spliced(content, i, |Split(block.search)|, moved, result)
    ensures Outcome(sim, content, block) == Hit(result, Indent, 1.0, Some(i + 1))
  {
    hide Split, Join, RStrip, CommonIndent, Hits, Matches, CountFrom, OccursAt, SameButTrailing, SameButIndent;
    hide DedentLine, FuzzyOutcome, IsReplacement, ReplaceLines, MovedLines, ReindentLines;
    var lines, search := Split(content), Split(block.search);
    TierWindows(lines, search);
    HitCount(TrailingWs, lines, search);
    OneHit(Indent, lines, search, i);
    CountMeans(content, block.search);
    ReplacementIs(block);
    MovedIs(plain, CommonIndent(search), CommonIndent(lines[i..i + |search|]), moved);
    NoHit(TrailingWs, lines, search);
  }

  lemma NoHit(tier: Tier, lines: seq<string>, search: seq<string>)
    requires search != [] && MatchesNone(tier, lines, search)
    ensures Hits(tier, lines, search) == []
  {
    hide Matches, HitsBelow;
    if Hits(tier, lines, search) != [] {
      HitsAreTheMatches(tier, lines, search, Hits(tier, lines, search)[0]);
    }
  }

  /** Two windows the same but for trailing whitespace, or, where there is none, two the same but for indentation. */
  lemma TwoWindowsRefuse(sim: Similarity, content: string, block: EditBlock, a: nat, b: nat)
    requires block.search != "" && Nowhere(content, block.search) && a < b
    requires var lines, search := Split(content), Split(block.search);
      || (SameButTrailing(lines, search, a) && SameButTrailing(lines, search, b))
      || (&& NoWindow(SameButTrailing, lines, search)
          && SameButIndent(lines, search, a) && SameButIndent(lines, search, b))
    ensures Outcome(sim, content, block) == Miss(Ambiguous)
  {
    hide Split, RStrip, CommonIndent, Outcome, OccursAt, IndentMatch, SameButIndent;
    var lines, search := Split(content), Split(block.search);
    TierWindows(lines, search);
    IndentMatchIff(lines, search, a);
    IndentMatchIff(lines, search, b);
    if SameButTrailing(lines, search, a) && SameButTrailing(lines, search, b) {
      TwoPlacesRefuse(sim, content, block, TrailingWs, a, b);
    } else {
      TwoPlacesRefuse(sim, content, block, Indent, a, b);
    }
  }

  // ----- the similarity tier

  /** As many lines as the SEARCH, or one more or fewer when it has at least six. */
  predicate AllowedSize(n: nat, size: nat) {
    size == n || (n >= 6 && (size == n - 1 || size == n + 1))
  }

  /** How alike a window and the SEARCH are once their lines are stripped at the end. */
  function Alike(sim: Similarity, lines: seq<string>, search: seq<string>, start: nat, size: nat): real
    requires start + size <= |lines|
  {
    sim.ratio(Join(StripEach(lines[start..start + size])), Join(StripEach(search)))
  }

  /** A window alike enough: 0.93, or 0.95 in a file of more than 2000 lines. */
  predicate Near(sim: Similarity, lines: seq<string>, search: seq<string>, start: nat, size: nat) {
    && start + size <= |lines| && AllowedSize(|search|, size)
    && Alike(sim, lines, search, start, size) >= if |lines| > 2000 then 0.95 else 0.93
  }

  /** The most alike window; of several the first, and of those at one line the shortest. */
  ghost predicate Nearest(sim: Similarity, lines: seq<string>, search: seq<string>, start: nat, size: nat) {
    && Near(sim, lines, search, start, size)
    && forall a: nat, b: nat :: Near(sim, lines, search, a, b) ==>
         var best, other := Alike(sim, lines, search, start, size), Alike(sim, lines, search, a, b);
         other < best || (other == best && (start < a || (start == a && size <= b)))
  }

  /** No window apart from this one is as alike to within 0.02. */
  ghost predicate StandsOut(sim: Similarity, lines: seq<string>, search: seq<string>, start: nat, size: nat)
    requires start + size <= |lines|
  {
    forall a: nat, b: nat :: Near(sim, lines, search, a, b) && (a + b <= start || start + size <= a) ==>
      Alike(sim, lines, search, start, size) - Alike(sim, lines, search, a, b) >= 0.02
  }

  lemma SameWindows(sim: Similarity, lines: seq<string>, search: seq<string>, start: nat, size: nat)
    ensures AllowedSize(|search|, size) <==> size in Sizes(|search|)
    ensures start + size <= |lines| ==>
              Alike(sim, lines, search, start, size) == WindowRatio(sim, lines, search, start, size)
  {
    if start + size <= |lines| {
      assert StripEach(lines[start..start + size]) == StripEach(lines)[start..start + size];
    }
  }

  lemma NearIff(sim: Similarity, lines: seq<string>, search: seq<string>, c: Cand)
    ensures c in CandsOver(sim, lines, search, Threshold(lines), Sizes(|search|)) <==>
            Near(sim, lines, search, c.start, c.size) && c.ratio == Alike(sim, lines, search, c.start, c.size)
  {
    hide WindowRatio, Alike, Sizes;
    SameWindows(sim, lines, search, c.start, c.size);
    CandsAreTheWindows(sim, lines, search, Threshold(lines), Sizes(|search|), c);
  }

  predicate SizesAscend(cands: seq<Cand>) {
    forall i, j :: 0 <= i < j < |cands| ==> cands[i].size <= cands[j].size
  }

  lemma {:induction false} CandsOverAscend(sim: Similarity, lines: seq<string>, search: seq<string>, threshold: real,
                                           sizes: seq<nat>)
    requires forall i, j :: 0 <= i < j < |sizes| ==> sizes[i] < sizes[j]
    ensures SizesAscend(CandsOver(sim, lines, search, threshold, sizes))
  {
    hide WindowRatio;
    if sizes != [] {
      var first := CandsBelow(sim, lines, search, threshold, sizes[0], Max(0, |lines| - sizes[0] + 1));
      var later := CandsOver(sim, lines, search, threshold, sizes[1..]);
      forall c <- first ensures c.size == sizes[0] {
        CandsFit(sim, lines, search, threshold, sizes[0], Max(0, |lines| - sizes[0] + 1), c);
      }
      forall c <- later ensures c.size > sizes[0] {
        CandsAreTheWindows(sim, lines, search, threshold, sizes[1..], c);
      }
      CandsOverAscend(sim, lines, search, threshold, sizes[1..]);
      hide CandsBelow, CandsOver;
      forall i, j | 0 <= i < j < |first + later| ensures (first + later)[i].size <= (first + later)[j].size {
      }
    }
  }

  /** The first of the sorted candidates is the nearest window. */
  lemma FirstIsNearest(sim: Similarity, lines: seq<string>, search: seq<string>, best: Cand)
    requires var cands := Sorted(CandsOver(sim, lines, search, Threshold(lines), Sizes(|search|)));
      cands != [] && cands[0] == best
    ensures best.start + best.size <= |lines| && best.ratio == Alike(sim, lines, search, best.start, best.size)
    ensures Nearest(sim, lines, search, best.start, best.size)
  {
    var found := CandsOver(sim, lines, search, Threshold(lines), Sizes(|search|));
    CandsOverAscend(sim, lines, search, Threshold(lines), Sizes(|search|));
    var k := Sorting.HeadIsFirst(Ahead, found);
    NearIff(sim, lines, search, best);
    hide CandsOver, Alike, Sizes, Threshold, Sorted;
    forall a: nat, b: nat | Near(sim, lines, search, a, b)
      ensures var other := Alike(sim, lines, search, a, b);
        other < best.ratio || (other == best.ratio && (best.start < a || (best.start == a && best.size <= b)))
    {
      FirstBeats(sim, lines, search, found, k, a, b);
    }
  }

  lemma FirstBeats(sim: Similarity, lines: seq<string>, search: seq<string>, found: seq<Cand>, k: nat, a: nat, b: nat)
    requires found == CandsOver(sim, lines, search, Threshold(lines), Sizes(|search|)) && SizesAscend(found)
    requires k < |found| && Near(sim, lines, search, a, b)
    requires forall j :: 0 <= j < k ==> Ahead(found[k], found[j])
    requires forall j :: 0 <= j < |found| ==> !Ahead(found[j], found[k])
    ensures var best, other := found[k], Alike(sim, lines, search, a, b);
      other < best.ratio || (other == best.ratio && (best.start < a || (best.start == a && best.size <= b)))
  {
    var c := Cand(Alike(sim, lines, search, a, b), a, b);
    NearIff(sim, lines, search, c);
    hide CandsOver, Alike, Sizes, Threshold, Near;
    var j :| 0 <= j < |found| && found[j] == c;
  }

  /** Nothing stricter finds the SEARCH. */
  ghost predicate LeftToSimilarity(content: string, search: string) {
    && search != "" && Nowhere(content, search)
    && NoWindow(SameButTrailing, Split(content), Split(search))
    && NoWindow(SameButIndent, Split(content), Split(search))
  }

  lemma IsFuzzy(sim: Similarity, content: string, block: EditBlock)
    requires LeftToSimilarity(content, block.search)
    ensures Outcome(sim, content, block) == FuzzyOutcome(sim, content, block)
  {
    var lines, search := Split(content), Split(block.search);
    TierWindows(lines, search);
    NoHit(TrailingWs, lines, search);
    NoHit(Indent, lines, search);
    CountMeans(content, block.search);
    hide Split, Hits, Matches, FuzzyOutcome, SameButTrailing, SameButIndent, OccursAt, CountFrom, ReindentLines;
  }

  ghost predicate NoneNear(sim: Similarity, lines: seq<string>, search: seq<string>) {
    forall a: nat, b: nat :: !Near(sim, lines, search, a, b)
  }

  /** A SEARCH of one or two lines, or with no window alike enough, is not found. */
  lemma NothingDecides(sim: Similarity, content: string, block: EditBlock)
    requires LeftToSimilarity(content, block.search)
    requires var lines, search := Split(content), Split(block.search);
      |search| < 3 || NoneNear(sim, lines, search)
    ensures Outcome(sim, content, block) == Miss(NotFound)
  {
    hide Split, Outcome, CandsOver, Sorted, Near, LeftToSimilarity, WindowRatio, Sizes, Threshold, Alike;
    var lines, search := Split(content), Split(block.search);
    var found := CandsOver(sim, lines, search, Threshold(lines), Sizes(|search|));
    IsFuzzy(sim, content, block);
    if |search| >= 3 && Sorted(found) != [] {
      var c := Sorted(found)[0];
      SortKeeps(found, c);
      NearIff(sim, lines, search, c);
      assert false;
    }
  }

  /** The nearest window takes the REPLACE if it stands out; if it does not the SEARCH is ambiguous. */
  lemma NearestDecides(sim: Similarity, content: string, block: EditBlock, start: nat, size: nat, middle: seq<string>,
                       result: string)
    requires LeftToSimilarity(content, block.search) && |Split(block.search)| >= 3
    requires Nearest(sim, Split(content), Split(block.search), start, size)
    requires IsReplacement(middle, block.replace) && Spliced(content, start, size, middle, result)
    ensures Outcome(sim, content, block)
         == if StandsOut(sim, Split(content), Split(block.search), start, size)
            then Hit(result, Fuzzy, Alike(sim, Split(content), Split(block.search), start, size), Some(start + 1))
            else Miss(Ambiguous)
  {
    hide Split, Join, Outcome, CandsOver, Sizes, Threshold, Sorted, Near, Nearest, StandsOut, Alike, IsReplacement,
         Rivals, LeftToSimilarity, WindowRatio;
    var lines, search := Split(content), Split(block.search);
    var found := CandsOver(sim, lines, search, Threshold(lines), Sizes(|search|));
    IsFuzzy(sim, content, block);
    ReplacementIs(block);
    NearestIsOne(sim, lines, search, start, size);
    var c := Cand(Alike(sim, lines, search, start, size), start, size);
    NearIff(sim, lines, search, c);
    SortKeeps(found, c);
    var best := Sorted(found)[0];
    FirstIsNearest(sim, lines, search, best);
    NearestIsOne(sim, lines, search, best.start, best.size);
    assert best == c;
    RivalsTell(sim, lines, search, best);
    SortKeeps(found, best);
    CandsAreTheWindows(sim, lines, search, Threshold(lines), Sizes(|search|), best);
  }

  lemma NearestIsOne(sim: Similarity, lines: seq<string>, search: seq<string>, start: nat, size: nat)
    requires Nearest(sim, lines, search, start, size)
    ensures Near(sim, lines, search, start, size) && start + size <= |lines|
    ensures forall a: nat, b: nat :: Nearest(sim, lines, search, a, b) ==> a == start && b == size
  {
    hide Alike;
  }

  /** The margin test sees the nearest of the windows apart from the best. */
  lemma RivalsTell(sim: Similarity, lines: seq<string>, search: seq<string>, best: Cand)
    requires |search| >= 3
    requires var cands := Sorted(CandsOver(sim, lines, search, Threshold(lines), Sizes(|search|)));
      cands != [] && cands[0] == best
    requires best.start + best.size <= |lines| && best.ratio == Alike(sim, lines, search, best.start, best.size)
    ensures var cands := Sorted(CandsOver(sim, lines, search, Threshold(lines), Sizes(|search|)));
      var rivals := Rivals(best, cands[1..]);
      (StandsOut(sim, lines, search, best.start, best.size)
       <==> rivals == [] || best.ratio - rivals[0].ratio >= 0.02)
  {
    var found := CandsOver(sim, lines, search, Threshold(lines), Sizes(|search|));
    var cands := Sorted(found);
    var rivals := Rivals(best, cands[1..]);
    hide CandsOver, Threshold, Sorted, Alike, Near, Sizes, Rivals;
    if rivals != [] {
      RivalIsApart(best, cands[1..]);
      assert rivals[0] in cands;
      SortKeeps(found, rivals[0]);
      NearIff(sim, lines, search, rivals[0]);
    }
    forall a: nat, b: nat | Near(sim, lines, search, a, b) && (a + b <= best.start || best.start + best.size <= a)
      ensures rivals == [] || best.ratio - rivals[0].ratio >= 0.02 ==>
                best.ratio - Alike(sim, lines, search, a, b) >= 0.02
    {
      var c := Cand(Alike(sim, lines, search, a, b), a, b);
      NearIff(sim, lines, search, c);
      ApartIsOther(sim, lines, search, best, c);
      BestIsClear(found, c);
    }
  }

  lemma ApartIsOther(sim: Similarity, lines: seq<string>, search: seq<string>, best: Cand, c: Cand)
    requires |search| >= 3 && Near(sim, lines, search, c.start, c.size)
    requires c.start + c.size <= best.start || best.start + best.size <= c.start
    ensures !Overlaps(best, c) && c != best
  {
    hide Alike;
  }

  lemma {:induction false} RivalIsApart(best: Cand, cands: seq<Cand>)
    requires Rivals(best, cands) != []
    ensures var r := Rivals(best, cands)[0];
      r in cands && (r.start + r.size <= best.start || best.start + best.size <= r.start)
  {
    if Overlaps(best, cands[0]) {
      RivalIsApart(best, cands[1..]);
    }
  }
}
