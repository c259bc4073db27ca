/** Repeated regions of a file, the longest first: a SEARCH inside one matches every copy of it. */
module DuplicateRegions {
  import opened Options
  import opened EditText
  import Sorting

  const DUP_MIN_LINES := 8
  const DUP_MIN_CHARS := 160
  const DUP_MAX_REPORTED := 3

  datatype Region = Region(length: nat, starts: seq<nat>, first: string)

  // ----- windows and where they occur

  function Window(lines: seq<string>, i: nat): seq<string>
    requires i + DUP_MIN_LINES <= |lines|
  {
    lines[i..i + DUP_MIN_LINES]
  }

  function SignificantChars(window: seq<string>): nat {
    if window == [] then 0 else |Strip(window[0])| + SignificantChars(window[1..])
  }

  predicate Significant(window: seq<string>) {
    SignificantChars(window) >= DUP_MIN_CHARS
  }

  /** The starts below `m` of the windows equal to `key`, in order. */
  function StartsBelow(lines: seq<string>, key: seq<string>, m: nat): seq<nat>
    requires m > 0 ==> m - 1 + DUP_MIN_LINES <= |lines|
  {
    if m == 0 then []
    else StartsBelow(lines, key, m - 1) + if Window(lines, m - 1) == key then [m - 1] else []
  }

  function WindowCount(lines: seq<string>): nat {
    Max(0, |lines| - DUP_MIN_LINES + 1)
  }

  /** Every start of a window equal to `key`. */
  function Starts(lines: seq<string>, key: seq<string>): seq<nat> {
    StartsBelow(lines, key, WindowCount(lines))
  }

  lemma {:induction false} StartsAscend(lines: seq<string>, key: seq<string>, m: nat)
    requires m > 0 ==> m - 1 + DUP_MIN_LINES <= |lines|
    ensures Ascending(StartsBelow(lines, key, m), m)
    ensures forall s <- StartsBelow(lines, key, m) :: s < m && Window(lines, s) == key
  {
    hide Window;
    if m > 0 {
      StartsAscend(lines, key, m - 1);
      assert Ascending(StartsBelow(lines, key, m - 1) + [m - 1], m);
    }
  }

  lemma {:induction false} StartsComplete(lines: seq<string>, key: seq<string>, m: nat, i: nat)
    requires m > 0 ==> m - 1 + DUP_MIN_LINES <= |lines|
    requires i < m && Window(lines, i) == key
    ensures i in StartsBelow(lines, key, m)
  {
    hide Window;
    if i < m - 1 {
      StartsComplete(lines, key, m - 1, i);
    }
  }

  // ----- one region

  /** The smallest distance between neighbouring copies. */
  function MinGap(starts: seq<nat>): int
    requires |starts| >= 2
  {
    var gap: int := starts[1] as int - starts[0] as int;
    if |starts| == 2 then gap else Min(gap, MinGap(starts[1..]))
  }

  lemma {:induction false} MinGapSeparates(starts: seq<nat>, n: nat, a: nat, b: nat)
    requires |starts| >= 2 && Ascending(starts, n) && a < b < |starts|
    ensures starts[a] + MinGap(starts) <= starts[b]
    ensures 0 < MinGap(starts)
  {
    if |starts| > 2 {
      var tail := starts[1..];
      assert forall c :: 0 <= c < |tail| ==> tail[c] == starts[c + 1];
      MinGapSeparates(tail, n, if a > 0 then a - 1 else 0, if b > 1 then b - 1 else 1);
    }
  }

  /** Every copy has a next line, and it is the same line in all of them. */
  predicate SameNextLine(lines: seq<string>, starts: seq<nat>, length: nat) {
    (|starts| > 0 ==> starts[0] + length < |lines|) &&
    forall a :: 0 <= a < |starts| ==>
      starts[a] + length < |lines| && lines[starts[a] + length] == lines[starts[0] + length]
  }

  /** Every copy is inside the file and equals the first for `length` lines. */
  predicate Identical(lines: seq<string>, starts: seq<nat>, length: nat) {
    (|starts| > 0 ==> starts[0] + length <= |lines|) &&
    forall a :: 0 <= a < |starts| ==>
      starts[a] + length <= |lines| && lines[starts[a]..starts[a] + length] == lines[starts[0]..starts[0] + length]
  }

  /**
   What makes a region: its starts are all the places where its first lines occur, no two copies
   overlap, all copies are the same for the whole length, and no line can be added at the end.
   */
  predicate IsRegion(lines: seq<string>, r: Region) {
    && |r.starts| >= 2
    && r.starts[0] + DUP_MIN_LINES <= |lines|
    && r.starts == Starts(lines, Window(lines, r.starts[0]))
    && Significant(Window(lines, r.starts[0]))
    && DUP_MIN_LINES <= r.length <= MinGap(r.starts)
    && Identical(lines, r.starts, r.length)
    && !(r.length < MinGap(r.starts) && SameNextLine(lines, r.starts, r.length))
    && r.first == Strip(lines[r.starts[0]])
  }

  /** A region is determined by where it first starts. */
  lemma RegionIsUnique(lines: seq<string>, r: Region, q: Region)
    requires IsRegion(lines, r) && IsRegion(lines, q) && r.starts[0] == q.starts[0]
    ensures r == q
  {
    hide StartsBelow, Strip, MinGap;
    if r.length < q.length {
      IdenticalHasNext(lines, q.starts, r.length, q.length);
    } else if q.length < r.length {
      IdenticalHasNext(lines, r.starts, q.length, r.length);
    }
  }

  lemma IdenticalHasNext(lines: seq<string>, starts: seq<nat>, length: nat, longer: nat)
    requires |starts| > 0 && length < longer && Identical(lines, starts, longer)
    ensures SameNextLine(lines, starts, length)
  {
    forall a | 0 <= a < |starts|
      ensures starts[a] + length < |lines| && lines[starts[a] + length] == lines[starts[0] + length]
    {
      assert lines[starts[a]..starts[a] + longer][length] == lines[starts[0]..starts[0] + longer][length];
    }
  }

  lemma SeedIsIdentical(lines: seq<string>, starts: seq<nat>)
    requires |starts| >= 2 && starts[0] + DUP_MIN_LINES <= |lines|
    requires starts == Starts(lines, Window(lines, starts[0]))
    ensures Identical(lines, starts, DUP_MIN_LINES)
  {
    hide StartsBelow;
    StartsAscend(lines, Window(lines, starts[0]), WindowCount(lines));
    forall a | 0 <= a < |starts|
      ensures starts[a] + DUP_MIN_LINES <= |lines| && Window(lines, starts[a]) == Window(lines, starts[0])
    {
      assert starts[a] in starts;
    }
  }

  lemma IdenticalGrows(lines: seq<string>, starts: seq<nat>, length: nat)
    requires Identical(lines, starts, length) && SameNextLine(lines, starts, length)
    ensures Identical(lines, starts, length + 1)
  {
    forall a | 0 <= a < |starts|
      ensures lines[starts[a]..starts[a] + length + 1] == lines[starts[0]..starts[0] + length + 1]
    {
      assert lines[starts[a]..starts[a] + length + 1]
          == lines[starts[a]..starts[a] + length] + [lines[starts[a] + length]];
      assert lines[starts[0]..starts[0] + length + 1]
          == lines[starts[0]..starts[0] + length] + [lines[starts[0] + length]];
    }
  }

  /** The growing loop: from the seed window to the whole region. */
  method Grow(lines: seq<string>, starts: seq<nat>) returns (r: Region)
    requires |starts| >= 2 && starts[0] + DUP_MIN_LINES <= |lines|
    requires starts == Starts(lines, Window(lines, starts[0])) && Significant(Window(lines, starts[0]))
    requires MinGap(starts) >= DUP_MIN_LINES
    ensures IsRegion(lines, r) && r.starts == starts
  {
    hide StartsBelow, Strip, MinGap, SignificantChars, Identical, SameNextLine;
    SeedIsIdentical(lines, starts);
    var length, gap := DUP_MIN_LINES, MinGap(starts);
    while length < gap && SameNextLine(lines, starts, length)
      invariant DUP_MIN_LINES <= length <= gap
      invariant Identical(lines, starts, length)
      decreases gap - length
    {
      IdenticalGrows(lines, starts, length);
      length := length + 1;
    }
    r := Region(length, starts, Strip(lines[starts[0]]));
  }

  // ----- the table of windows

  /** The table after the windows below `i`: each significant one met, with its starts so far. */
  ghost predicate TableUpTo(lines: seq<string>, windows: map<seq<string>, seq<nat>>, i: nat)
    requires i > 0 ==> i - 1 + DUP_MIN_LINES <= |lines|
  {
    && (forall key <- windows :: windows[key] == StartsBelow(lines, key, i) && windows[key] != [] && Significant(key))
    && (forall key :: Significant(key) && key !in windows ==> StartsBelow(lines, key, i) == [])
  }

  function Met(windows: map<seq<string>, seq<nat>>, key: seq<string>, i: nat): map<seq<string>, seq<nat>> {
    if Significant(key) then windows[key := (if key in windows then windows[key] else []) + [i]] else windows
  }

  lemma TableStep(lines: seq<string>, windows: map<seq<string>, seq<nat>>, i: nat)
    requires i + DUP_MIN_LINES <= |lines| && TableUpTo(lines, windows, i)
    ensures TableUpTo(lines, Met(windows, Window(lines, i), i), i + 1)
  {
    hide Window, SignificantChars;
    var here := Window(lines, i);
    forall key ensures StartsBelow(lines, key, i + 1) ==
                       if key == here then StartsBelow(lines, key, i) + [i] else StartsBelow(lines, key, i)
    {
    }
  }

  /** The dict from window to starts: its keys in insertion order, and the starts of each. */
  method WindowTable(lines: seq<string>) returns (keys: seq<seq<string>>, windows: map<seq<string>, seq<nat>>)
    ensures forall key :: key in keys <==> key in windows
    ensures TableUpTo(lines, windows, WindowCount(lines))
  {
    hide Window, Significant, StartsBelow, TableUpTo;
    keys, windows := [], map[];
    EmptyTable(lines);
    for i := 0 to WindowCount(lines)
      invariant forall key :: key in keys <==> key in windows
      invariant TableUpTo(lines, windows, i)
    {
      var key := Window(lines, i);
      TableStep(lines, windows, i);
      if Significant(key) {
        if key !in windows {
          keys := keys + [key];
          assert [] + [i] == [i];
          windows := windows[key := [i]];
        } else {
          windows := windows[key := windows[key] + [i]];
        }
      }
    }
  }

  lemma EmptyTable(lines: seq<string>)
    ensures TableUpTo(lines, map[], 0)
  {
  }

  /** Every significant window is in the finished table. */
  lemma TableHolds(lines: seq<string>, windows: map<seq<string>, seq<nat>>, i: nat)
    requires TableUpTo(lines, windows, WindowCount(lines))
    requires i < WindowCount(lines) && Significant(Window(lines, i))
    ensures Window(lines, i) in windows
  {
    StartsComplete(lines, Window(lines, i), WindowCount(lines), i);
  }

  /** Every region of the file, each once, in the order its windows were first met. */
  method FindRegions(lines: seq<string>) returns (found: seq<Region>)
    ensures forall r :: r in found <==> IsRegion(lines, r)
  {
    hide StartsBelow, Strip, SignificantChars, MinGap, Identical, SameNextLine;
    var keys, windows := WindowTable(lines);
    found := [];
    for k := 0 to |keys|
      invariant forall r <- found :: IsRegion(lines, r)
      invariant forall r :: IsRegion(lines, r) && Window(lines, r.starts[0]) in keys[..k] ==> r in found
    {
      var starts := windows[keys[k]];
      StartsAscend(lines, keys[k], WindowCount(lines));
      assert starts[0] in starts;
      ghost var before := found;
      if |starts| >= 2 && MinGap(starts) >= DUP_MIN_LINES {
        var region := Grow(lines, starts);
        found := found + [region];
        forall r | IsRegion(lines, r) && Window(lines, r.starts[0]) == keys[k] ensures r in found {
          RegionIsUnique(lines, r, region);
        }
      }
      forall r | IsRegion(lines, r) && Window(lines, r.starts[0]) in keys[..k + 1] ensures r in found {
        if Window(lines, r.starts[0]) !in keys[..k] {
          assert Window(lines, r.starts[0]) == keys[k];
        }
      }
    }
    forall r | IsRegion(lines, r) ensures r in found {
      TableHolds(lines, windows, r.starts[0]);
      assert Window(lines, r.starts[0]) in keys && keys[..|keys|] == keys;
    }
  }

  // ----- choosing what to report

  /** The sort key: longer first, then earlier. */
  predicate Ahead(a: Region, b: Region) {
    a.length > b.length || (a.length == b.length && FirstStart(a) < FirstStart(b))
  }

  function FirstStart(r: Region): nat {
    if r.starts == [] then 0 else r.starts[0]
  }

  /** The regions found, in the order of the key. */
  function ByKey(found: seq<Region>): seq<Region> {
    Sorting.Sort(Ahead, found)
  }

  lemma ByKeyIs(found: seq<Region>)
    ensures Sorting.Sorted(Ahead, ByKey(found))
    ensures forall r :: r in ByKey(found) <==> r in found
  {
    assert Sorting.Orders(Ahead) by { AheadOrders(); }
    Sorting.SortSorts(Ahead, found);
    forall r ensures r in ByKey(found) <==> r in found {
      Sorting.SortKeeps(Ahead, found, r);
    }
  }

  lemma AheadOrders()
    ensures Sorting.Orders(Ahead)
  {
  }

  /** Some copy of one shares a line with some copy of the other. */
  predicate Overlap(r: Region, q: Region) {
    exists a, b :: 0 <= a < |r.starts| && 0 <= b < |q.starts| &&
                   r.starts[a] < q.starts[b] + q.length && q.starts[b] < r.starts[a] + r.length
  }

  predicate OverlapsAny(r: Region, chosen: seq<Region>) {
    exists k :: 0 <= k < |chosen| && Overlap(r, chosen[k])
  }

  /** The spans of the copies of a region. */
  function Spans(r: Region): (spans: seq<(nat, nat)>)
    ensures |spans| == |r.starts|
    ensures forall a :: 0 <= a < |spans| ==> spans[a] == (r.starts[a], r.starts[a] + r.length)
  {
    seq(|r.starts|, a requires 0 <= a < |r.starts| => (r.starts[a], r.starts[a] + r.length))
  }

  predicate Clash(spans: seq<(nat, nat)>, covered: seq<(nat, nat)>) {
    exists a, c :: 0 <= a < |spans| && 0 <= c < |covered| &&
                   spans[a].0 < covered[c].1 && covered[c].0 < spans[a].1
  }

  predicate OfSome(span: (nat, nat), chosen: seq<Region>) {
    exists k :: 0 <= k < |chosen| && span in Spans(chosen[k])
  }

  /** `covered` holds the spans of exactly the chosen regions. */
  predicate Covers(covered: seq<(nat, nat)>, chosen: seq<Region>) {
    && (forall c :: 0 <= c < |covered| ==> OfSome(covered[c], chosen))
    && (forall k, a :: 0 <= k < |chosen| && 0 <= a < |chosen[k].starts| ==> Spans(chosen[k])[a] in covered)
  }

  lemma ClashOverlaps(r: Region, covered: seq<(nat, nat)>, chosen: seq<Region>)
    requires Covers(covered, chosen) && Clash(Spans(r), covered)
    ensures OverlapsAny(r, chosen)
  {
    var a, c :| 0 <= a < |Spans(r)| && 0 <= c < |covered| &&
                Spans(r)[a].0 < covered[c].1 && covered[c].0 < Spans(r)[a].1;
    assert OfSome(covered[c], chosen);
    var k :| 0 <= k < |chosen| && covered[c] in Spans(chosen[k]);
    var b :| 0 <= b < |Spans(chosen[k])| && Spans(chosen[k])[b] == covered[c];
    assert Overlap(r, chosen[k]);
  }

  lemma OverlapClashes(r: Region, covered: seq<(nat, nat)>, chosen: seq<Region>)
    requires Covers(covered, chosen) && OverlapsAny(r, chosen)
    ensures Clash(Spans(r), covered)
  {
    hide Spans;
    var k :| 0 <= k < |chosen| && Overlap(r, chosen[k]);
    var a, b :| 0 <= a < |r.starts| && 0 <= b < |chosen[k].starts| &&
                r.starts[a] < chosen[k].starts[b] + chosen[k].length && chosen[k].starts[b] < r.starts[a] + r.length;
    assert Spans(chosen[k])[b] in covered;
    var c :| 0 <= c < |covered| && covered[c] == Spans(chosen[k])[b];
    assert Spans(r)[a].0 < covered[c].1 && covered[c].0 < Spans(r)[a].1;
  }

  /** The copies of a region share no line with each other. */
  lemma CopiesAreDisjoint(lines: seq<string>, r: Region, a: nat, b: nat)
    requires IsRegion(lines, r) && a < b < |r.starts|
    ensures r.starts[a] + r.length <= r.starts[b]
  {
    hide StartsBelow, Strip, MinGap, Identical, SameNextLine, SignificantChars;
    StartsAscend(lines, Window(lines, r.starts[0]), WindowCount(lines));
    MinGapSeparates(r.starts, WindowCount(lines), a, b);
  }

  /** At most three, longest first, and no two of them share a line. */
  predicate WellChosen(chosen: seq<Region>) {
    && |chosen| <= DUP_MAX_REPORTED
    && Sorting.Sorted(Ahead, chosen)
    && forall i, j :: 0 <= i < j < |chosen| ==> !Overlap(chosen[j], chosen[i])
  }

  /** A region is left out only for one ahead of it that it overlaps, or because three are ahead of it. */
  predicate Accounted(r: Region, chosen: seq<Region>) {
    || r in chosen
    || (exists k :: 0 <= k < |chosen| && Overlap(r, chosen[k]) && !Ahead(r, chosen[k]))
    || (|chosen| == DUP_MAX_REPORTED && forall k :: 0 <= k < |chosen| ==> !Ahead(r, chosen[k]))
  }

  method Choose(found: seq<Region>) returns (chosen: seq<Region>)
    ensures WellChosen(chosen)
    ensures forall r <- chosen :: r in found
    ensures forall r <- found :: Accounted(r, chosen)
  {
    hide Overlap, Ahead, Clash, Accounted, Covers;
    hide ByKey;
    ByKeyIs(found);
    var sorted := ByKey(found);
    chosen := [];
    var covered: seq<(nat, nat)> := [];
    ghost var at: seq<nat> := [];
    NothingCovered();
    for i := 0 to |sorted|
      invariant WellChosen(chosen) && |chosen| < DUP_MAX_REPORTED
      invariant |at| == |chosen| && forall k :: 0 <= k < |at| ==> at[k] < i && chosen[k] == sorted[at[k]]
      invariant Covers(covered, chosen)
      invariant forall j :: 0 <= j < i ==> Accounted(sorted[j], chosen)
    {
      var r := sorted[i];
      assert forall k :: 0 <= k < |chosen| ==> !Ahead(r, chosen[k]);
      if Clash(Spans(r), covered) {
        ClashOverlaps(r, covered, chosen);
        OverlapAccounts(r, chosen);
        continue;
      }
      if OverlapsAny(r, chosen) {
        OverlapClashes(r, covered, chosen);
        assert false;
      }
      CoversMore(covered, chosen, r);
      forall j | 0 <= j <= i ensures Accounted(sorted[j], chosen + [r]) {
        if j < i {
          AccountedGrows(sorted[j], chosen, r);
        } else {
          ChosenAccounts(r, chosen + [r]);
        }
      }
      covered := covered + Spans(r);
      chosen := chosen + [r];
      at := at + [i];
      if |chosen| == DUP_MAX_REPORTED {
        forall j | i < j < |sorted| ensures Accounted(sorted[j], chosen) {
          FullAccounts(sorted[j], chosen);
        }
        return;
      }
    }
  }

  lemma NothingCovered()
    ensures Covers([], [])
  {
  }

  lemma OverlapAccounts(r: Region, chosen: seq<Region>)
    requires OverlapsAny(r, chosen) && forall k :: 0 <= k < |chosen| ==> !Ahead(r, chosen[k])
    ensures Accounted(r, chosen)
  {
  }

  lemma ChosenAccounts(r: Region, chosen: seq<Region>)
    requires r in chosen
    ensures Accounted(r, chosen)
  {
  }

  lemma FullAccounts(r: Region, chosen: seq<Region>)
    requires |chosen| == DUP_MAX_REPORTED && forall k :: 0 <= k < |chosen| ==> !Ahead(r, chosen[k])
    ensures Accounted(r, chosen)
  {
  }

  lemma CoversMore(covered: seq<(nat, nat)>, chosen: seq<Region>, r: Region)
    requires Covers(covered, chosen)
    ensures Covers(covered + Spans(r), chosen + [r])
  {
    hide Spans;
    var more, all := covered + Spans(r), chosen + [r];
    forall c | 0 <= c < |more| ensures OfSome(more[c], all) {
      if c < |covered| {
        assert OfSome(covered[c], chosen);
        var k :| 0 <= k < |chosen| && covered[c] in Spans(chosen[k]);
        assert all[k] == chosen[k];
      } else {
        assert all[|chosen|] == r && more[c] == Spans(r)[c - |covered|];
      }
    }
    forall k, a | 0 <= k < |all| && 0 <= a < |all[k].starts| ensures Spans(all[k])[a] in more {
      if k < |chosen| {
        assert Spans(chosen[k])[a] in covered;
      } else {
        assert more[|covered| + a] == Spans(r)[a];
      }
    }
  }

  lemma AccountedGrows(q: Region, chosen: seq<Region>, r: Region)
    requires Accounted(q, chosen) && |chosen| < DUP_MAX_REPORTED
    ensures Accounted(q, chosen + [r])
  {
    hide Overlap, Ahead;
    if exists k :: 0 <= k < |chosen| && Overlap(q, chosen[k]) && !Ahead(q, chosen[k]) {
      var k :| 0 <= k < |chosen| && Overlap(q, chosen[k]) && !Ahead(q, chosen[k]);
      assert (chosen + [r])[k] == chosen[k];
    }
  }

  /** Line numbers count from one. */
  function OneBased(r: Region): Region {
    Region(r.length, seq(|r.starts|, a requires 0 <= a < |r.starts| => r.starts[a] + 1), r.first)
  }

  /**
   A report: regions of the file whose copies are identical but for trailing whitespace, disjoint from
   each other and from other reported regions, none able to grow, longest first, at most three; and
   every other region of the file overlaps a reported one at least as long, or three are reported.
   */
  ghost predicate IsReport(lines: seq<string>, regions: seq<Region>, chosen: seq<Region>) {
    && |regions| == |chosen| && (forall k :: 0 <= k < |chosen| ==> regions[k] == OneBased(chosen[k]))
    && WellChosen(chosen) && (forall k :: 0 <= k < |chosen| ==> IsRegion(lines, chosen[k]))
    && (forall r :: IsRegion(lines, r) ==> Accounted(r, chosen))
  }

  method DuplicatedRegions(content: string) returns (regions: seq<Region>)
    ensures exists chosen: seq<Region> :: IsReport(StripEach(Split(content)), regions, chosen)
  {
    hide IsRegion, Accounted, WellChosen;
    var lines := StripEach(Split(content));
    if |lines| < 2 * DUP_MIN_LINES {
      TooShort(lines);
      EmptyChoice();
      assert IsReport(lines, [], []);
      return [];
    }
    var found := FindRegions(lines);
    var chosen := Choose(found);
    forall k | 0 <= k < |chosen| ensures IsRegion(lines, chosen[k]) {
      assert chosen[k] in chosen;
    }
    regions := seq(|chosen|, k requires 0 <= k < |chosen| => OneBased(chosen[k]));
    assert IsReport(lines, regions, chosen);
  }

  lemma EmptyChoice()
    ensures WellChosen([])
  {
  }

  /** Two disjoint copies need twice the window. */
  lemma TooShort(lines: seq<string>)
    requires |lines| < 2 * DUP_MIN_LINES
    ensures forall r :: !IsRegion(lines, r)
  {
    hide StartsBelow, Strip, SignificantChars;
    forall r ensures !IsRegion(lines, r) {
      if IsRegion(lines, r) {
        StartsAscend(lines, Window(lines, r.starts[0]), WindowCount(lines));
        MinGapSeparates(r.starts, WindowCount(lines), 0, 1);
        assert false;
      }
    }
  }
}
