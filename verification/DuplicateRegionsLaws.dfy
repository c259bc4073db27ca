/** What a reported region is, told by the lines of the file alone. */
module DuplicateRegionsLaws {
  import opened Options
  import opened EditText
  import opened DuplicateRegions
  import Sorting

  /** The eight lines at both places are the same. */
  predicate EightAlike(lines: seq<string>, i: nat, j: nat) {
    i + 8 <= |lines| && j + 8 <= |lines| && lines[i..i + 8] == lines[j..j + 8]
  }

  /** The characters of the eight lines at `i`, whitespace at both ends of each aside. */
  function CharsAt(lines: seq<string>, i: nat): nat
    requires i + 8 <= |lines|
  {
    |Strip(lines[i])| + |Strip(lines[i + 1])| + |Strip(lines[i + 2])| + |Strip(lines[i + 3])|
    + |Strip(lines[i + 4])| + |Strip(lines[i + 5])| + |Strip(lines[i + 6])| + |Strip(lines[i + 7])|
  }

  /** The copies are at least two, in order, inside the file, apart, and the same. */
  predicate AreCopies(lines: seq<string>, r: Region) {
    && |r.starts| >= 2 && r.length >= 8
    && (forall a, b :: 0 <= a < b < |r.starts| ==> r.starts[a] + r.length <= r.starts[b])
    && (forall a :: 0 <= a < |r.starts| ==> r.starts[a] + r.length <= |lines|)
    && forall a :: 0 <= a < |r.starts| ==>
         lines[r.starts[a]..r.starts[a] + r.length] == lines[r.starts[0]..r.starts[0] + r.length]
  }

  /** A copy ends at the end of the file, or at the next copy, or before a line that the first does not have. */
  predicate CannotGrow(lines: seq<string>, r: Region)
    requires |r.starts| >= 2
  {
    || (exists a :: 0 <= a < |r.starts| && r.starts[a] + r.length >= |lines|)
    || (exists a :: 0 < a < |r.starts| && r.starts[a] <= r.starts[a - 1] + r.length)
    || (exists a :: 0 <= a < |r.starts| && r.starts[0] + r.length < |lines| && r.starts[a] + r.length < |lines|
                    && lines[r.starts[a] + r.length] != lines[r.starts[0] + r.length])
  }

  /** Every place with the same eight lines is a copy, and those lines hold at least 160 characters. */
  ghost predicate Repeats(lines: seq<string>, r: Region) {
    && AreCopies(lines, r) && CannotGrow(lines, r)
    && (forall i: nat :: EightAlike(lines, i, r.starts[0]) ==> i in r.starts)
    && CharsAt(lines, r.starts[0]) >= 160
    && r.first == Strip(lines[r.starts[0]])
  }

  // ----- the parts

  lemma CharsAre(lines: seq<string>, i: nat)
    requires i + 8 <= |lines|
    ensures SignificantChars(Window(lines, i)) == CharsAt(lines, i)
  {
    hide Strip;
    var w := Window(lines, i);
    assert w[1..][1..] == w[2..] && w[2..][1..] == w[3..] && w[3..][1..] == w[4..] && w[4..][1..] == w[5..];
    assert w[5..][1..] == w[6..] && w[6..][1..] == w[7..] && w[7..][1..] == [];
    assert SignificantChars(w[7..]) == |Strip(w[7])|;
    assert SignificantChars(w[6..]) == |Strip(w[6])| + SignificantChars(w[7..]);
    assert SignificantChars(w[5..]) == |Strip(w[5])| + SignificantChars(w[6..]);
    assert SignificantChars(w[4..]) == |Strip(w[4])| + SignificantChars(w[5..]);
    assert SignificantChars(w[3..]) == |Strip(w[3])| + SignificantChars(w[4..]);
    assert SignificantChars(w[2..]) == |Strip(w[2])| + SignificantChars(w[3..]);
    assert SignificantChars(w[1..]) == |Strip(w[1])| + SignificantChars(w[2..]);
  }

  /** The smallest gap is between some two neighbours. */
  lemma {:induction false} MinGapIsAttained(starts: seq<nat>) returns (a: nat)
    requires |starts| >= 2
    ensures 0 < a < |starts| && starts[a] as int - starts[a - 1] as int == MinGap(starts)
  {
    if |starts| == 2 || starts[1] as int - starts[0] as int <= MinGap(starts[1..]) {
      a := 1;
    } else {
      a := MinGapIsAttained(starts[1..]);
      a := a + 1;
    }
  }

  /** The copies are apart exactly when no gap is smaller than their length. */
  lemma ApartIff(starts: seq<nat>, n: nat, length: nat)
    requires |starts| >= 2 && Ascending(starts, n)
    ensures length <= MinGap(starts) <==> forall a, b :: 0 <= a < b < |starts| ==> starts[a] + length <= starts[b]
  {
    hide MinGap;
    if length <= MinGap(starts) {
      forall a, b | 0 <= a < b < |starts| ensures starts[a] + length <= starts[b] {
        MinGapSeparates(starts, n, a, b);
      }
    }
    var a := MinGapIsAttained(starts);
    assert starts[a - 1] < starts[a];
  }

  /** Two ascending lists with the same members are one. */
  lemma {:induction false} SameMembers(s: seq<nat>, t: seq<nat>, n: nat)
    requires Ascending(s, n) && Ascending(t, n) && forall x: nat :: x in s <==> x in t
    ensures s == t
    decreases |s|
  {
    assert s != [] ==> s[|s| - 1] in t;
    assert t != [] ==> t[|t| - 1] in s;
    if s != [] && t != [] {
      var x, y := s[|s| - 1], t[|t| - 1];
      var s1, t1 := s[..|s| - 1], t[..|t| - 1];
      assert s == s1 + [x] && t == t1 + [y];
      assert x == y;
      forall z: nat ensures z in s1 <==> z in t1 {
        assert z in s1 <==> z in s && z != x;
        assert z in t1 <==> z in t && z != y;
      }
      SameMembers(s1, t1, n);
    }
  }

  lemma StartsAre(lines: seq<string>, s0: nat, i: nat)
    requires s0 + 8 <= |lines|
    ensures i in Starts(lines, Window(lines, s0)) <==> EightAlike(lines, i, s0)
    ensures Ascending(Starts(lines, Window(lines, s0)), |lines|)
  {
    var key := Window(lines, s0);
    StartsAscend(lines, key, WindowCount(lines));
    hide StartsBelow;
    if i + 8 <= |lines| {
      if Window(lines, i) == key {
        StartsComplete(lines, key, WindowCount(lines), i);
      }
    }
  }

  lemma StartsIff(lines: seq<string>, starts: seq<nat>)
    requires |starts| >= 2 && starts[0] + 8 <= |lines|
    ensures starts == Starts(lines, Window(lines, starts[0])) <==>
      && Ascending(starts, |lines|)
      && forall i: nat :: i in starts <==> EightAlike(lines, i, starts[0])
  {
    hide Window, StartsBelow, EightAlike;
    var all := Starts(lines, Window(lines, starts[0]));
    forall i: nat ensures i in all <==> EightAlike(lines, i, starts[0]) {
      StartsAre(lines, starts[0], i);
    }
    StartsAre(lines, starts[0], 0);
    if Ascending(starts, |lines|) && forall i: nat :: i in starts <==> EightAlike(lines, i, starts[0]) {
      SameMembers(starts, all, |lines|);
    }
  }

  lemma GrowIff(lines: seq<string>, r: Region)
    requires |r.starts| >= 2 && Ascending(r.starts, |lines|) && r.length <= MinGap(r.starts)
    ensures CannotGrow(lines, r) <==> !(r.length < MinGap(r.starts) && SameNextLine(lines, r.starts, r.length))
  {
    hide MinGap;
    var a := MinGapIsAttained(r.starts);
    forall b | 0 < b < |r.starts| ensures r.starts[b - 1] + MinGap(r.starts) <= r.starts[b] {
      MinGapSeparates(r.starts, |lines|, b - 1, b);
    }
  }

  /** A region is exactly a repetition: all the copies of at least eight lines and 160 characters, apart and whole. */
  lemma RegionIff(lines: seq<string>, r: Region)
    ensures IsRegion(lines, r) <==> Repeats(lines, r)
  {
    hide StartsBelow, Strip, MinGap, SignificantChars, CharsAt, SameNextLine, Identical, Window, EightAlike, CannotGrow;
    if IsRegion(lines, r) {
      RegionRepeats(lines, r);
    }
    if Repeats(lines, r) {
      RepeatIsRegion(lines, r);
    }
  }

  lemma RegionRepeats(lines: seq<string>, r: Region)
    requires IsRegion(lines, r)
    ensures Repeats(lines, r)
  {
    hide StartsBelow, Strip, MinGap, SignificantChars, CharsAt, SameNextLine, Window, EightAlike, CannotGrow;
    StartsIff(lines, r.starts);
    ApartIff(r.starts, |lines|, r.length);
    GrowIff(lines, r);
    CharsAre(lines, r.starts[0]);
  }

  lemma CopiesStartAlike(lines: seq<string>, r: Region)
    requires AreCopies(lines, r)
    ensures r.starts[0] + 8 <= |lines| && Ascending(r.starts, |lines|)
    ensures forall i: nat :: i in r.starts ==> EightAlike(lines, i, r.starts[0])
  {
    forall i: nat | i in r.starts ensures EightAlike(lines, i, r.starts[0]) {
      var a :| 0 <= a < |r.starts| && r.starts[a] == i;
      var s0 := r.starts[0];
      assert lines[i..i + r.length][..8] == lines[i..i + 8] && lines[s0..s0 + r.length][..8] == lines[s0..s0 + 8];
    }
  }

  lemma RepeatIsRegion(lines: seq<string>, r: Region)
    requires Repeats(lines, r)
    ensures IsRegion(lines, r)
  {
    hide StartsBelow, Strip, MinGap, SignificantChars, CharsAt, SameNextLine, Window, CannotGrow;
    CopiesStartAlike(lines, r);
    hide EightAlike;
    StartsIff(lines, r.starts);
    ApartIff(r.starts, |lines|, r.length);
    GrowIff(lines, r);
    CharsAre(lines, r.starts[0]);
  }

  /** Two reported regions, as reported, share no line. */
  predicate Apart(r: Region, q: Region) {
    forall a, b :: 0 <= a < |r.starts| && 0 <= b < |q.starts| ==>
      r.starts[a] + r.length <= q.starts[b] || q.starts[b] + q.length <= r.starts[a]
  }

  /** The region counted from line one. */
  predicate CountsFromOne(shown: Region, r: Region) {
    && shown.length == r.length && shown.first == r.first && |shown.starts| == |r.starts|
    && forall a :: 0 <= a < |r.starts| ==> shown.starts[a] == r.starts[a] + 1
  }

  /** Longer first, and of two as long the earlier. */
  predicate ComesBefore(r: Region, q: Region)
    requires r.starts != [] && q.starts != []
  {
    r.length > q.length || (r.length == q.length && r.starts[0] <= q.starts[0])
  }

  /**
   What a report says: at most three repetitions, counted from line one, each before the next in the order of length
   and place, apart from each other; and no other repetition is left out but one that touches a reported one that
   comes before it, or one that three come before.
   */
  lemma ReportSays(lines: seq<string>, regions: seq<Region>, chosen: seq<Region>)
    requires IsReport(lines, regions, chosen)
    ensures |regions| == |chosen| <= 3
    ensures forall k :: 0 <= k < |chosen| ==> CountsFromOne(regions[k], chosen[k]) && Repeats(lines, chosen[k])
    ensures forall i, j :: 0 <= i < j < |chosen| ==> ComesBefore(chosen[i], chosen[j]) && Apart(chosen[i], chosen[j])
    ensures forall r :: Repeats(lines, r) && r !in chosen ==>
      || (exists k :: 0 <= k < |chosen| && ComesBefore(chosen[k], r) && !Apart(r, chosen[k]))
      || (|chosen| == 3 && forall k :: 0 <= k < 3 ==> ComesBefore(chosen[k], r))
  {
    hide IsRegion, Repeats, Apart, ComesBefore, DuplicateRegions.Ahead, Overlap;
    forall r ensures IsRegion(lines, r) <==> Repeats(lines, r) {
      RegionIff(lines, r);
    }
    forall r | Repeats(lines, r) ensures |r.starts| >= 2 {
      RepeatsTwice(lines, r);
    }
    forall r: Region, q: Region | |r.starts| >= 2 && |q.starts| >= 2
      ensures !DuplicateRegions.Ahead(r, q) <==> ComesBefore(q, r)
      ensures Overlap(r, q) <==> !Apart(r, q)
    {
      OrderIs(r, q);
    }
    forall r | Repeats(lines, r) && r !in chosen
      ensures
        || (exists k :: 0 <= k < |chosen| && ComesBefore(chosen[k], r) && !Apart(r, chosen[k]))
        || (|chosen| == 3 && forall k :: 0 <= k < 3 ==> ComesBefore(chosen[k], r))
    {
      assert Accounted(r, chosen);
    }
    forall i, j | 0 <= i < j < |chosen| ensures ComesBefore(chosen[i], chosen[j]) && Apart(chosen[i], chosen[j]) {
      ApartBothWays(chosen[i], chosen[j]);
    }
  }

  lemma OrderIs(r: Region, q: Region)
    requires |r.starts| >= 2 && |q.starts| >= 2
    ensures !DuplicateRegions.Ahead(r, q) <==> ComesBefore(q, r)
    ensures Overlap(r, q) <==> !Apart(r, q)
  {
  }

  lemma ApartBothWays(r: Region, q: Region)
    ensures Apart(r, q) <==> Apart(q, r)
  {
  }

  lemma RepeatsTwice(lines: seq<string>, r: Region)
    requires Repeats(lines, r)
    ensures |r.starts| >= 2
  {
  }
}
