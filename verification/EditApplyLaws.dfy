/** What applying SEARCH/REPLACE blocks promises, tier by tier and over a whole run. */
module EditApplyLaws {
  import opened Options
  import opened EditText
  import opened EditParser
  import opened EditApply
  import Sorting

  // ----- when a count of one means one place

  /** The text can overlap itself: some proper suffix is also a prefix. */
  predicate SelfOverlaps(s: string) {
    exists k :: 0 < k < |s| && s[k..] == s[..|s| - k]
  }

  ghost predicate UniqueIn(content: string, search: string) {
    forall p: nat, q: nat :: OccursAt(content, search, p) && OccursAt(content, search, q) ==> p == q
  }

  /** A count of zero means the text is nowhere; a count of one, that every occurrence overlaps the first. */
  lemma CountMeans(content: string, search: string)
    requires search != ""
    ensures CountFrom(content, search, 0) == 0 <==> forall p: nat :: !OccursAt(content, search, p)
    ensures CountFrom(content, search, 0) == 1 <==>
            exists p: nat :: OccursAt(content, search, p) &&
                             forall q: nat :: OccursAt(content, search, q) ==> p <= q < p + |search|
  {
    var p := FindFrom(content, search, 0);
    if p.Some? {
      var next := FindFrom(content, search, p.value + |search|);
      if next.None? {
        assert OccursAt(content, search, p.value);
      } else {
        assert OccursAt(content, search, next.value);
        forall r: nat | OccursAt(content, search, r)
          ensures !forall q: nat :: OccursAt(content, search, q) ==> r <= q < r + |search|
        {
          assert OccursAt(content, search, p.value) && OccursAt(content, search, next.value);
        }
      }
    }
  }

  /** A text that overlaps itself has a content that holds it twice and counts it once. */
  lemma CountedOnceTwice(search: string) returns (content: string)
    requires search != "" && SelfOverlaps(search)
    ensures CountFrom(content, search, 0) == 1 && !UniqueIn(content, search)
  {
    var k :| 0 < k < |search| && search[k..] == search[..|search| - k];
    content := search[..k] + search;
    assert content[..|search|] == search[..k] + search[..|search| - k] == search;
    assert OccursAt(content, search, 0) && content[k..] == search && OccursAt(content, search, k);
    assert FindFrom(content, search, 0) == Some(0) && FindFrom(content, search, |search|) == None;
    assert CountFrom(content, search, 0) == 1 + CountFrom(content, search, |search|) == 1;
  }

  /** `count == 1` is a unique place in every content exactly when the text cannot overlap itself. */
  lemma CountOneIsUniqueIff(search: string)
    requires search != ""
    ensures (forall content :: CountFrom(content, search, 0) == 1 ==> UniqueIn(content, search))
            <==> !SelfOverlaps(search)
  {
    if SelfOverlaps(search) {
      var content := CountedOnceTwice(search);
    } else {
      hide CountFrom;
      forall content | CountFrom(content, search, 0) == 1 ensures UniqueIn(content, search) {
        CountMeans(content, search);
        var p: nat :| OccursAt(content, search, p) &&
          forall q: nat :: OccursAt(content, search, q) ==> p <= q < p + |search|;
        forall q: nat | OccursAt(content, search, q) ensures q == p {
          if q != p {
            OverlapIsSelfOverlap(content, search, p, q);
          }
        }
      }
    }
  }

  lemma OverlapIsSelfOverlap(content: string, search: string, p: nat, q: nat)
    requires OccursAt(content, search, p) && OccursAt(content, search, q) && p < q < p + |search|
    ensures SelfOverlaps(search)
  {
    var k := q - p;
    assert search[k..] == content[q..p + |search|] == search[..|search| - k];
  }

  // ----- the exact tier is a splice when the occurrence is whole lines

  /** Where the lines after `before` start in the joined text. */
  function LineOffset(before: seq<string>): nat {
    if before == [] then 0 else |Join(before)| + 1
  }

  lemma JoinThree(a: seq<string>, m: seq<string>, b: seq<string>)
    requires m != []
    ensures var text := Join(a + m + b);
            && LineOffset(a) + |Join(m)| <= |text|
            && text == text[..LineOffset(a)] + Join(m) + text[LineOffset(a) + |Join(m)|..]
            && text[..LineOffset(a)] == (if a == [] then "" else Join(a) + "\n")
            && text[LineOffset(a) + |Join(m)|..] == if b == [] then "" else "\n" + Join(b)
  {
    hide Join;
    var head, tail := if a == [] then "" else Join(a) + "\n", if b == [] then "" else "\n" + Join(b);
    if a != [] {
      JoinConcat(a, m + b);
      assert a + m + b == a + (m + b);
    } else {
      assert a + m + b == m + b;
    }
    if b != [] {
      JoinConcat(m, b);
    } else {
      assert m + b == m;
    }
    assert Join(a + m + b) == head + Join(m) + tail;
  }

  /**
   An occurrence that is whole lines: replacing the substring is splicing the REPLACE's lines over them.
   The line tiers splice no line at all for an empty REPLACE, and then the two differ by one newline,
   unless the SEARCH was the whole file.
   */
  lemma ExactIsSplice(before: seq<string>, window: seq<string>, after: seq<string>, replace: string)
    requires AllOneLine(before) && AllOneLine(window) && AllOneLine(after) && window != []
    ensures var content, search, at := Join(before + window + after), Join(window), LineOffset(before);
            && OccursAt(content, search, at)
            && Split(content) == before + window + after
            && ReplaceAt(content, search, replace, at) == Splice(content, |before|, |window|, Split(replace))
            && (replace == "" && before + after != [] ==>
                  |ReplaceAt(content, search, replace, at)| == |Splice(content, |before|, |window|, [])| + 1)
            && (replace == "" && before + after == [] ==>
                  ReplaceAt(content, search, replace, at) == Splice(content, |before|, |window|, []))
  {
    hide Split, Join;
    JoinThree(before, window, after);
    SplitJoin(before + window + after);
    var content, search, at := Join(before + window + after), Join(window), LineOffset(before);
    assert content[at..at + |search|] == search;
    SpliceOverWindow(before, window, after, replace);
    if replace == "" {
      EmptySplice(before, after);
      assert before + [] + after == before + after;
      LinesAround(before, window, after);
    }
  }

  lemma LinesAround(before: seq<string>, window: seq<string>, after: seq<string>)
    ensures var lines := before + window + after;
      |before| + |window| <= |lines| && lines[..|before|] == before && lines[|before| + |window|..] == after
  {
  }

  lemma SpliceOverWindow(before: seq<string>, window: seq<string>, after: seq<string>, replace: string)
    requires AllOneLine(before) && AllOneLine(window) && AllOneLine(after) && window != []
    ensures var content, search, at := Join(before + window + after), Join(window), LineOffset(before);
      && Split(content) == before + window + after && OccursAt(content, search, at)
      && ReplaceAt(content, search, replace, at) == Splice(content, |before|, |window|, Split(replace))
      && Splice(content, |before|, |window|, Split(replace)) == Join(before + Split(replace) + after)
  {
    hide Split, Join;
    JoinThree(before, window, after);
    SplitJoin(before + window + after);
    JoinThree(before, Split(replace), after);
    JoinSplit(replace);
    LinesAround(before, window, after);
    var content, search, at := Join(before + window + after), Join(window), LineOffset(before);
    assert content[at..at + |search|] == search;
    assert Join(before + Split(replace) + after) == content[..at] + replace + content[at + |search|..];
  }

  lemma EmptySplice(before: seq<string>, after: seq<string>)
    ensures Split("") == [""]
    ensures |Join(before + [""] + after)| == |Join(before + after)| + if before + after == [] then 0 else 1
  {
    hide Join, Split;
    SplitOneLine("");
    JoinThree(before, [""], after);
    JoinSplit("");
    if before != [] && after != [] {
      JoinConcat(before, after);
    } else {
      assert after == [] ==> before + after == before;
      assert before == [] ==> before + after == after;
      JoinNothing();
    }
  }

  lemma JoinNothing()
    ensures Join([]) == ""
  {
  }

  // ----- indentation

  lemma PrefixTrans(a: string, b: string, c: string)
    requires a <= b && b <= c
    ensures a <= c
  {
  }

  lemma {:induction false} SharedIsShared(prefix: string, lines: seq<string>)
    ensures SharedWith(prefix, lines) <= prefix
    ensures forall j :: 0 <= j < |lines| ==> SharedWith(prefix, lines) <= lines[j]
    decreases |lines|
  {
    hide CommonPrefix, LeadingWs;
    if lines != [] {
      var next := CommonPrefix(prefix, LeadingWs(lines[0]));
      SharedIsShared(next, lines[1..]);
      PrefixTrans(SharedWith(prefix, lines), next, prefix);
      PrefixTrans(next, LeadingWs(lines[0]), lines[0]);
      PrefixTrans(SharedWith(prefix, lines), next, lines[0]);
      forall j | 1 <= j < |lines| ensures SharedWith(prefix, lines) <= lines[j] {
        assert lines[j] == lines[1..][j - 1];
      }
    }
  }

  lemma {:induction false} CommonPrefixIsLongest(a: string, b: string, w: string)
    requires w <= a && w <= b
    ensures w <= CommonPrefix(a, b)
  {
    if w != "" {
      CommonPrefixIsLongest(a[1..], b[1..], w[1..]);
    }
  }

  lemma {:induction false} BlankPrefixIsLeading(line: string, w: string)
    requires AllBlank(w) && w <= line
    ensures w <= LeadingWs(line)
  {
    if w != "" {
      BlankPrefixIsLeading(line[1..], w[1..]);
    }
  }

  lemma {:induction false} SharedIsLongest(prefix: string, lines: seq<string>, w: string)
    requires AllBlank(w) && w <= prefix && forall j :: 0 <= j < |lines| ==> w <= lines[j]
    ensures w <= SharedWith(prefix, lines)
    decreases |lines|
  {
    hide CommonPrefix, LeadingWs;
    if lines != [] {
      BlankPrefixIsLeading(lines[0], w);
      CommonPrefixIsLongest(prefix, LeadingWs(lines[0]), w);
      SharedIsLongest(CommonPrefix(prefix, LeadingWs(lines[0])), lines[1..], w);
    }
  }

  lemma {:induction false} NonBlankAre(lines: seq<string>, line: string)
    ensures line in NonBlank(lines) <==> line in lines && !BlankLine(line)
  {
    hide RStrip;
    if lines != [] {
      NonBlankAre(lines[1..], line);
    }
  }

  lemma {:induction false} NothingNonBlank(lines: seq<string>)
    requires NonBlank(lines) == []
    ensures forall j :: 0 <= j < |lines| ==> BlankLine(lines[j])
  {
    hide RStrip;
    if lines != [] {
      NothingNonBlank(lines[1..]);
      assert forall j :: 1 <= j < |lines| ==> lines[j] == lines[1..][j - 1];
    }
  }

  /** Indentation that every non-blank line starts with. */
  predicate IndentOf(w: string, lines: seq<string>) {
    AllBlank(w) && forall j :: 0 <= j < |lines| && !BlankLine(lines[j]) ==> w <= lines[j]
  }

  /** The common indent is indentation every non-blank line starts with, and no other such is longer. */
  lemma CommonIndentIsLongest(lines: seq<string>, w: string)
    ensures IndentOf(CommonIndent(lines), lines)
    ensures IndentOf(w, lines) && NonBlank(lines) != [] ==> w <= CommonIndent(lines)
  {
    hide RStrip, LeadingWs;
    var nonblank := NonBlank(lines);
    if nonblank != [] {
      var first := LeadingWs(nonblank[0]);
      SharedIsShared(first, nonblank[1..]);
      PrefixTrans(CommonIndent(lines), first, nonblank[0]);
      forall j | 0 <= j < |nonblank| ensures CommonIndent(lines) <= nonblank[j] {
        if j > 0 {
          assert nonblank[j] == nonblank[1..][j - 1];
        }
      }
      assert AllBlank(CommonIndent(lines)) by {
        assert forall i :: 0 <= i < |CommonIndent(lines)| ==> CommonIndent(lines)[i] == first[i];
      }
      forall j | 0 <= j < |lines| && !BlankLine(lines[j]) ensures CommonIndent(lines) <= lines[j] {
        NonBlankAre(lines, lines[j]);
      }
      if IndentOf(w, lines) {
        forall j | 0 <= j < |nonblank| ensures w <= nonblank[j] {
          NonBlankAre(lines, nonblank[j]);
        }
        BlankPrefixIsLeading(nonblank[0], w);
        SharedIsLongest(first, nonblank[1..], w);
      }
    } else {
      NothingNonBlank(lines);
    }
  }

  lemma BlankIsSpace(w: string)
    requires AllBlank(w)
    ensures AllSpace(w)
  {
  }

  /** Taking indentation off a line that has it leaves a rest that is blank exactly when the line is. */
  lemma IndentedLine(line: string, w: string)
    requires AllBlank(w) && w <= line
    ensures line == w + line[|w|..]
    ensures BlankLine(line) <==> BlankLine(line[|w|..])
    ensures !BlankLine(line) ==> RStrip(line) == w + RStrip(line[|w|..])
  {
    hide RStrip;
    var rest := line[|w|..];
    BlankIffAllSpace(line);
    BlankIffAllSpace(rest);
    BlankIsSpace(w);
    assert forall i :: 0 <= i < |rest| ==> rest[i] == line[|w| + i];
    if !BlankLine(rest) {
      RStripConcat(w, rest);
    }
  }

  /** Moving lines to another indentation and back changes nothing, when every non-blank line has the first. */
  lemma ReindentRoundTrip(lines: seq<string>, a: string, b: string)
    requires IndentOf(a, lines) && AllBlank(b)
    ensures ReindentLines(ReindentLines(lines, a, b), b, a) == lines
  {
    forall j | 0 <= j < |lines| ensures ReindentLine(ReindentLine(lines[j], a, b), b, a) == lines[j] {
      var line := lines[j];
      if !BlankLine(line) {
        IndentedLine(line, a);
        var moved := b + line[|a|..];
        IndentedLine(moved, b);
        assert moved[|b|..] == line[|a|..];
      }
    }
  }

  // ----- the tiers agree with each other

  predicate SameStripped(a: seq<string>, b: seq<string>) {
    |a| == |b| && forall j :: 0 <= j < |a| ==> RStrip(a[j]) == RStrip(b[j])
  }

  lemma {:induction false} LeadingWsStops(line: string, k: nat)
    requires k < |line| && !IsBlank(line[k])
    ensures |LeadingWs(line)| <= k
  {
    if IsBlank(line[0]) {
      LeadingWsStops(line[1..], k - 1);
    }
  }

  /** A line and its stripped form start with the same indentation, unless the line is blank. */
  lemma LeadingWsOfStripped(line: string)
    requires !BlankLine(line)
    ensures LeadingWs(line) == LeadingWs(RStrip(line))
  {
    hide LeadingWs, RStrip;
    RStripPrefix(line);
    var r, ws := RStrip(line), LeadingWs(line);
    LeadingWsStops(line, |r| - 1);
    assert forall i :: 0 <= i < |ws| && i < |r| ==> r[i] == line[i];
    assert ws <= r;
    LeadingWsUnique(r, ws);
  }

  lemma {:induction false} SameNonBlank(a: seq<string>, b: seq<string>)
    requires SameStripped(a, b)
    ensures SameStripped(NonBlank(a), NonBlank(b))
  {
    hide RStrip;
    if a != [] {
      SameNonBlank(a[1..], b[1..]);
    }
  }

  lemma {:induction false} SharedAgrees(prefix: string, a: seq<string>, b: seq<string>)
    requires SameStripped(a, b) && forall j :: 0 <= j < |a| ==> !BlankLine(a[j])
    ensures SharedWith(prefix, a) == SharedWith(prefix, b)
    decreases |a|
  {
    hide RStrip, LeadingWs, CommonPrefix;
    if a != [] {
      LeadingWsOfStripped(a[0]);
      LeadingWsOfStripped(b[0]);
      SharedAgrees(CommonPrefix(prefix, LeadingWs(a[0])), a[1..], b[1..]);
    }
  }

  lemma CommonIndentAgrees(a: seq<string>, b: seq<string>)
    requires SameStripped(a, b)
    ensures CommonIndent(a) == CommonIndent(b)
  {
    hide RStrip, LeadingWs;
    SameNonBlank(a, b);
    var na, nb := NonBlank(a), NonBlank(b);
    if na != [] {
      forall j | 0 <= j < |na| ensures !BlankLine(na[j]) {
        NonBlankAre(a, na[j]);
      }
      LeadingWsOfStripped(na[0]);
      LeadingWsOfStripped(nb[0]);
      SharedAgrees(LeadingWs(na[0]), na[1..], nb[1..]);
    }
  }

  lemma DedentAgrees(a: string, b: string, w: string)
    requires RStrip(a) == RStrip(b) && AllBlank(w)
    requires !BlankLine(a) ==> w <= a && w <= b
    ensures RStrip(DedentLine(a, w)) == RStrip(DedentLine(b, w))
  {
    hide RStrip;
    if BlankLine(a) {
      if w <= a {
        IndentedLine(a, w);
      }
      if w <= b {
        IndentedLine(b, w);
      }
    } else {
      IndentedLine(a, w);
      IndentedLine(b, w);
      assert RStrip(a)[|w|..] == RStrip(a[|w|..]) && RStrip(b)[|w|..] == RStrip(b[|w|..]);
    }
  }

  /** Every window the trailing-whitespace tier matches, the indent tier matches too. */
  lemma TrailMatchIsIndentMatch(lines: seq<string>, search: seq<string>, i: nat)
    requires TrailMatch(lines, search, i)
    ensures IndentMatch(lines, search, i)
  {
    hide RStrip, CommonIndent, DedentLine;
    var window := lines[i..i + |search|];
    assert SameStripped(window, search);
    CommonIndentAgrees(window, search);
    CommonIndentIsLongest(window, "");
    CommonIndentIsLongest(search, "");
    forall j | 0 <= j < |search|
      ensures RStrip(DedentLine(window[j], CommonIndent(window)))
           == RStrip(DedentLine(search[j], CommonIndent(search)))
    {
      DedentAgrees(window[j], search[j], CommonIndent(search));
    }
  }

  /** The REPLACE line of an unchanged SEARCH line, moved to the window, is the window's line. */
  lemma UnchangedLine(search: string, window: string, from: string, to: string)
    requires AllBlank(from) && AllBlank(to)
    requires !BlankLine(search) ==> from <= search
    requires !BlankLine(window) ==> to <= window
    requires RStrip(DedentLine(window, to)) == RStrip(DedentLine(search, from))
    ensures RStrip(ReindentLine(search, from, to)) == RStrip(window)
  {
    hide RStrip;
    if from <= search {
      IndentedLine(search, from);
    }
    if to <= window {
      IndentedLine(window, to);
    }
    if !BlankLine(search) {
      var rest := search[|from|..];
      IndentedLine(to + rest, to);
      assert (to + rest)[|to|..] == rest;
      assert from == "" ==> rest == search;
    }
  }

  lemma OneLineConcat(a: string, b: string)
    requires OneLine(a) && OneLine(b)
    ensures OneLine(a + b)
  {
  }

  lemma BlankIsOneLine(w: string)
    requires AllBlank(w)
    ensures OneLine(w)
  {
  }

  lemma {:induction false} SplicedLines(lines: seq<string>, start: nat, middle: seq<string>, size: nat)
    requires AllOneLine(lines) && AllOneLine(middle) && start + size <= |lines| && middle != []
    ensures Split(Join(lines[..start] + middle + lines[start + size..]))
         == lines[..start] + middle + lines[start + size..]
  {
    hide Split, Join, OneLine;
    SplitJoin(lines[..start] + middle + lines[start + size..]);
  }

  /** Unchanged SEARCH lines moved to a window they match are the window's lines. */
  lemma MovedWindow(lines: seq<string>, search: seq<string>, i: nat)
    requires AllOneLine(lines) && AllOneLine(search) && IndentMatch(lines, search, i)
    ensures var window := lines[i..i + |search|];
            var moved := ReindentLines(search, CommonIndent(search), CommonIndent(window));
            AllOneLine(moved) && SameStripped(moved, window)
  {
    hide RStrip, CommonIndent, DedentLine, OneLine;
    var window := lines[i..i + |search|];
    CommonIndentIsLongest(search, "");
    CommonIndentIsLongest(window, "");
    BlankIsOneLine(CommonIndent(window));
    var moved := ReindentLines(search, CommonIndent(search), CommonIndent(window));
    forall j | 0 <= j < |search| ensures RStrip(moved[j]) == RStrip(window[j]) && OneLine(moved[j]) {
      UnchangedLine(search[j], window[j], CommonIndent(search), CommonIndent(window));
      MovedIsOneLine(search[j], CommonIndent(search), CommonIndent(window));
    }
  }

  lemma SameStrippedInPlace(lines: seq<string>, start: nat, middle: seq<string>)
    requires start + |middle| <= |lines| && SameStripped(middle, lines[start..start + |middle|])
    ensures SameStripped(lines[..start] + middle + lines[start + |middle|..], lines)
  {
    hide RStrip;
    var r := lines[..start] + middle + lines[start + |middle|..];
    forall j | 0 <= j < |r| ensures RStrip(r[j]) == RStrip(lines[j]) {
      if start <= j < start + |middle| {
        assert r[j] == middle[j - start] && lines[j] == lines[start..start + |middle|][j - start];
      }
    }
  }

  /**
   A block whose REPLACE is its SEARCH, landed by the indent tier, leaves every line of the file as it
   was, trailing whitespace aside.
   */
  lemma UnchangedBlockLeavesLines(sim: Similarity, content: string, text: string)
    ensures var r := Outcome(sim, content, EditBlock(text, text));
            r.Hit? && r.tier == Indent ==> SameStripped(Split(r.content), Split(content))
  {
    hide Split, CommonIndent, CountFrom, HitsBelow, CandsOver, Sorted, Join, IndentMatch, SameStripped, OneLine;
    var r := Outcome(sim, content, EditBlock(text, text));
    if !r.Hit? || r.tier != Indent {
      return;
    }
    var lines, search := Split(content), Split(text);
    var i := Hits(Indent, lines, search)[0];
    HitsAreTheMatches(Indent, lines, search, i);
    SplitYieldsLines(content);
    SplitYieldsLines(text);
    MatchIsInside(Indent, lines, search, i);
    MovedWindow(lines, search, i);
    var window := lines[i..i + |search|];
    var moved := ReindentLines(search, CommonIndent(search), CommonIndent(window));
    SplicedLines(lines, i, moved, |search|);
    SameStrippedInPlace(lines, i, moved);
  }

  lemma MovedIsOneLine(line: string, from: string, to: string)
    requires OneLine(line) && OneLine(to)
    ensures OneLine(ReindentLine(line, from, to))
  {
    hide RStrip;
    if from <= line {
      OneLineConcat(to, line[|from|..]);
    }
  }

  // ----- the ladder

  /** The text occurs nowhere byte for byte. */
  ghost predicate Nowhere(content: string, search: string) {
    forall p: nat :: !OccursAt(content, search, p)
  }

  ghost predicate MatchesNone(tier: Tier, lines: seq<string>, search: seq<string>) {
    forall i: nat :: !Matches(tier, lines, search, i)
  }

  ghost predicate MatchesOnlyAt(tier: Tier, lines: seq<string>, search: seq<string>, i: nat) {
    Matches(tier, lines, search, i) && forall k: nat :: Matches(tier, lines, search, k) ==> k == i
  }

  lemma HitCount(tier: Tier, lines: seq<string>, search: seq<string>)
    requires search != []
    ensures |Hits(tier, lines, search)| == 0 ==> MatchesNone(tier, lines, search)
    ensures |Hits(tier, lines, search)| == 1 ==> MatchesOnlyAt(tier, lines, search, Hits(tier, lines, search)[0])
    ensures |Hits(tier, lines, search)| > 1 ==>
              exists a: nat, b: nat :: a < b && Matches(tier, lines, search, a) && Matches(tier, lines, search, b)
  {
    hide Matches, HitsBelow;
    var hits := Hits(tier, lines, search);
    forall i: nat ensures i in hits <==> Matches(tier, lines, search, i) {
      HitsAreTheMatches(tier, lines, search, i);
    }
    HitsAscend(tier, lines, search, Max(0, |lines| - |search| + 1));
    if |hits| > 1 {
      assert hits[0] in hits && hits[1] in hits && hits[0] < hits[1];
    }
  }

  /**
   A block lands only where it is the one place its tier finds, and only when no stricter tier finds any.
   */
  lemma LandsAtTheOnlyPlace(sim: Similarity, content: string, block: EditBlock)
    requires Outcome(sim, content, block).Hit?
    ensures var r, lines, search := Outcome(sim, content, block), Split(content), Split(block.search);
            && block.search != ""
            && (r.tier == Exact <==> CountFrom(content, block.search, 0) == 1)
            && (r.tier != Exact ==> Nowhere(content, block.search))
            && (r.tier == TrailingWs ==> r.line.Some? && r.line.value > 0 &&
                                         MatchesOnlyAt(TrailingWs, lines, search, r.line.value - 1))
            && (r.tier == Indent || r.tier == Fuzzy ==> MatchesNone(TrailingWs, lines, search))
            && (r.tier == Indent ==> r.line.Some? && r.line.value > 0 &&
                                     MatchesOnlyAt(Indent, lines, search, r.line.value - 1))
            && (r.tier == Fuzzy ==> MatchesNone(Indent, lines, search))
  {
    hide Split, Hits, Matches, CandsOver, Sorted, Rivals, Splice, CommonIndent;
    CountMeans(content, block.search);
    HitCount(TrailingWs, Split(content), Split(block.search));
    HitCount(Indent, Split(content), Split(block.search));
  }

  /** Two places of one tier: disjoint occurrences of the text, or two windows that match. */
  ghost predicate TwoPlaces(tier: Tier, content: string, search: string, a: nat, b: nat) {
    if tier == Exact then OccursAt(content, search, a) && OccursAt(content, search, b) && a + |search| <= b
    else a < b && Matches(tier, Split(content), Split(search), a) && Matches(tier, Split(content), Split(search), b)
  }

  /** Every tier stricter than this one found nothing. */
  ghost predicate NothingStricter(tier: Tier, content: string, search: string) {
    && (tier != Exact ==> Nowhere(content, search))
    && (tier == Indent ==> MatchesNone(TrailingWs, Split(content), Split(search)))
  }

  /** A tier that finds two places refuses: nothing looser is tried. */
  lemma TwoPlacesRefuse(sim: Similarity, content: string, block: EditBlock, tier: Tier, a: nat, b: nat)
    requires block.search != "" && tier != Fuzzy
    requires NothingStricter(tier, content, block.search) && TwoPlaces(tier, content, block.search, a, b)
    ensures Outcome(sim, content, block) == Miss(Ambiguous)
  {
    hide Split, Hits, Matches, CandsOver, Sorted, Rivals, Splice, CommonIndent, CountFrom;
    CountMeans(content, block.search);
    HitCount(TrailingWs, Split(content), Split(block.search));
    HitCount(Indent, Split(content), Split(block.search));
    if tier == Exact {
      assert !exists p: nat :: OccursAt(content, block.search, p) &&
                               forall q: nat :: OccursAt(content, block.search, q) ==> p <= q < p + |block.search|;
    } else {
      HitsAreTheMatches(tier, Split(content), Split(block.search), a);
      HitsAreTheMatches(tier, Split(content), Split(block.search), b);
    }
  }

  // ----- the similarity tier

  lemma SortSorts(cands: seq<Cand>)
    ensures Sorting.Sorted(Ahead, Sorted(cands))
  {
    Sorting.SortSorts(Ahead, cands);
  }

  /** The first rival is a candidate that does not overlap the best, and no other such scores higher. */
  lemma {:induction false} FirstRival(best: Cand, cands: seq<Cand>, c: Cand)
    requires Sorting.Sorted(Ahead, cands) && c in cands && !Overlaps(best, c)
    ensures Rivals(best, cands) != [] && Rivals(best, cands)[0].ratio >= c.ratio
  {
    if Overlaps(best, cands[0]) {
      assert c in cands[1..];
      FirstRival(best, cands[1..], c);
    } else {
      var k :| 0 <= k < |cands| && cands[k] == c;
      assert k > 0 ==> !Ahead(cands[k], cands[0]);
    }
  }

  predicate LandedFuzzily(r: BlockOutcome) {
    r.Hit? && r.tier == Fuzzy
  }

  /** The outcome is a splice at a window of an allowed size whose own ratio reaches the threshold. */
  predicate IsLanding(sim: Similarity, content: string, block: EditBlock, best: Cand, r: BlockOutcome) {
    var lines, search := Split(content), Split(block.search);
    && best.size in Sizes(|search|) && best.start + best.size <= |lines|
    && best.ratio == WindowRatio(sim, lines, search, best.start, best.size) >= Threshold(lines)
    && r == Hit(Splice(content, best.start, best.size, ReplaceLines(block)), Fuzzy, best.ratio, Some(best.start + 1))
  }

  /** No window scores higher, and one that reaches the threshold elsewhere scores lower by the margin. */
  ghost predicate IsClear(sim: Similarity, lines: seq<string>, search: seq<string>, best: Cand) {
    forall start: nat, size: nat ::
      size in Sizes(|search|) && start + size <= |lines| ==>
      var ratio := WindowRatio(sim, lines, search, start, size);
      ratio >= Threshold(lines) ==>
        ratio <= best.ratio && (!Overlaps(best, Cand(ratio, start, size)) ==> best.ratio - ratio >= FUZZY_MARGIN)
  }

  /**
   Where the similarity tier lands scores at or above the threshold, no window scores higher, and every
   window that reaches the threshold without overlapping it scores lower by at least the margin.
   */
  lemma FuzzyLandingIsClear(sim: Similarity, content: string, block: EditBlock) returns (best: Cand)
    ensures LandedFuzzily(Outcome(sim, content, block)) ==>
              && IsLanding(sim, content, block, best, Outcome(sim, content, block))
              && IsClear(sim, Split(content), Split(block.search), best)
  {
    hide Split, Hits, CandsOver, Sorted, Splice, CommonIndent, CountFrom, WindowRatio, Sizes, Ahead, Overlaps, Rivals;
    best := Cand(0.0, 0, 0);
    if !LandedFuzzily(Outcome(sim, content, block)) {
      return;
    }
    var lines, search := Split(content), Split(block.search);
    var found := CandsOver(sim, lines, search, Threshold(lines), Sizes(|search|));
    best := Sorted(found)[0];
    SortKeeps(found, best);
    CandsAreTheWindows(sim, lines, search, Threshold(lines), Sizes(|search|), best);
    SizesArePositive(|search|);
    forall start: nat, size: nat | size in Sizes(|search|) && start + size <= |lines|
      && WindowRatio(sim, lines, search, start, size) >= Threshold(lines)
      ensures var c := Cand(WindowRatio(sim, lines, search, start, size), start, size);
              c.ratio <= best.ratio && (!Overlaps(best, c) ==> best.ratio - c.ratio >= FUZZY_MARGIN)
    {
      var c := Cand(WindowRatio(sim, lines, search, start, size), start, size);
      CandsAreTheWindows(sim, lines, search, Threshold(lines), Sizes(|search|), c);
      BestIsClear(found, c);
      OverlapsItself(c);
    }
  }

  lemma SizesArePositive(n: nat)
    requires n >= FUZZY_MIN_LINES
    ensures forall size <- Sizes(n) :: size > 0
  {
  }

  lemma OverlapsItself(c: Cand)
    requires c.size > 0
    ensures Overlaps(c, c)
  {
  }

  lemma BestIsClear(found: seq<Cand>, c: Cand)
    requires c in found
    ensures var cands := Sorted(found);
            && cands != [] && c.ratio <= cands[0].ratio
            && var rivals := Rivals(cands[0], cands[1..]);
               (rivals == [] || cands[0].ratio - rivals[0].ratio >= FUZZY_MARGIN)
               && !Overlaps(cands[0], c) && c != cands[0]
               ==> cands[0].ratio - c.ratio >= FUZZY_MARGIN
  {
    hide Sorted, Overlaps, Rivals;
    var cands := Sorted(found);
    SortKeeps(found, c);
    SortSorts(found);
    var k :| 0 <= k < |cands| && cands[k] == c;
    assert k > 0 ==> !Ahead(cands[k], cands[0]);
    if c != cands[0] && !Overlaps(cands[0], c) {
      assert c == cands[1..][k - 1];
      FirstRival(cands[0], cands[1..], c);
    }
  }

  // ----- each step, and the whole run

  /** Everything outside one matched window is kept: the characters around it, or the lines around it. */
  ghost predicate KeepsTheRest(content: string, block: EditBlock, r: BlockOutcome)
    requires r.Hit?
  {
    if r.tier == Exact then
      exists p: nat :: OccursAt(content, block.search, p) &&
                       r.content == content[..p] + block.replace + content[p + |block.search|..]
    else
      exists size: nat, middle: seq<string> :: LinesKept(content, block, r, size, middle)
  }

  /** The lines before the reported one and after the `size` lines of the window are as they were. */
  predicate LinesKept(content: string, block: EditBlock, r: BlockOutcome, size: nat, middle: seq<string>)
    requires r.Hit?
  {
    r.line.Some? && r.line.value > 0 &&
    var lines, start := Split(content), r.line.value - 1;
    start + size <= |lines| && (r.tier != Fuzzy ==> size == |Split(block.search)|) &&
    r.content == Join(lines[..start] + middle + lines[start + size..])
  }

  /** Whatever tier lands a block, the text outside the one window it matched is untouched. */
  lemma LandingKeepsTheRest(sim: Similarity, content: string, block: EditBlock)
    requires Outcome(sim, content, block).Hit?
    ensures KeepsTheRest(content, block, Outcome(sim, content, block))
  {
    hide Split, CandsOver, Sorted, CommonIndent, HitsBelow, Matches, Rivals, Join;
    var r, lines, search := Outcome(sim, content, block), Split(content), Split(block.search);
    if r.tier == Exact {
      FoundWhenCounted(content, block.search);
      assert OccursAt(content, block.search, FindFrom(content, block.search, 0).value);
    } else if r.tier == TrailingWs {
      var i := Hits(TrailingWs, lines, search)[0];
      HitsAreTheMatches(TrailingWs, lines, search, i);
      MatchIsInside(TrailingWs, lines, search, i);
      assert LinesKept(content, block, r, |search|, ReplaceLines(block));
    } else if r.tier == Indent {
      var i := Hits(Indent, lines, search)[0];
      HitsAreTheMatches(Indent, lines, search, i);
      MatchIsInside(Indent, lines, search, i);
      var window := lines[i..i + |search|];
      var moved := ReindentLines(ReplaceLines(block), CommonIndent(search), CommonIndent(window));
      assert LinesKept(content, block, r, |search|, moved);
    } else {
      var found := CandsOver(sim, lines, search, Threshold(lines), Sizes(|search|));
      var best := Sorted(found)[0];
      SortKeeps(found, best);
      CandsAreTheWindows(sim, lines, search, Threshold(lines), Sizes(|search|), best);
      assert LinesKept(content, block, r, best.size, ReplaceLines(block));
    }
  }

  /** `contents` is the file before and after each block that landed. */
  ghost predicate Run(sim: Similarity, contents: seq<string>, blocks: seq<EditBlock>, applied: seq<AppliedBlock>) {
    && |contents| == |applied| + 1 && |applied| <= |blocks|
    && forall k :: 0 <= k < |applied| ==>
         && applied[k].index == k + 1
         && Outcome(sim, contents[k], blocks[k])
              == Hit(contents[k + 1], applied[k].tier, applied[k].ratio, applied[k].line)
         && KeepsTheRest(contents[k], blocks[k], Outcome(sim, contents[k], blocks[k]))
  }

  /**
   Blocks land in order, each on what the one before left, until all have landed or one does not: then
   the failure names the block after the last that landed, and nothing is returned as content.
   */
  lemma {:induction false} AppliesAllOrNamesTheFirstMiss(sim: Similarity, contents: seq<string>,
                                                         blocks: seq<EditBlock>, applied: seq<AppliedBlock>)
    returns (all: seq<string>)
    requires Run(sim, contents, blocks, applied)
    ensures var r := ApplyFrom(sim, contents[|applied|], blocks, |applied|, applied);
            && Run(sim, all, blocks, r.applied)
            && contents <= all
            && (r.Landed? ==> |r.applied| == |blocks| && r.content == all[|blocks|])
            && (r.Failed? ==> && r.failedIndex == |r.applied| + 1 <= |blocks|
                              && r.failedBlock == blocks[r.failedIndex - 1]
                              && Outcome(sim, all[|r.applied|], r.failedBlock) == Miss(r.reason))
    decreases |blocks| - |applied|
  {
    hide Outcome, KeepsTheRest;
    var k := |applied|;
    all := contents;
    if k < |blocks| {
      var outcome := Outcome(sim, contents[k], blocks[k]);
      match outcome {
        case Miss(_) =>
        case Hit(next, tier, ratio, line) =>
          LandingKeepsTheRest(sim, contents[k], blocks[k]);
          var applied' := applied + [AppliedBlock(k + 1, tier, ratio, line)];
          all := AppliesAllOrNamesTheFirstMiss(sim, contents + [next], blocks, applied');
      }
    }
  }
}
