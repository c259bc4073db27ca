/** Python's stable `sort`, by insertion, for any order that a key induces. */
module Sorting {
  /** `ahead` puts one value strictly before another, and ties are an equivalence. */
  ghost predicate Orders<T(!new)>(ahead: (T, T) -> bool) {
    && (forall a: T, b: T :: ahead(a, b) ==> !ahead(b, a))
    && (forall a: T, b: T, c: T :: !ahead(b, a) && !ahead(c, b) ==> !ahead(c, a))
  }

  predicate Sorted<T>(ahead: (T, T) -> bool, s: seq<T>) {
    forall i, j :: 0 <= i < j < |s| ==> !ahead(s[j], s[i])
  }

  function Insert<T>(ahead: (T, T) -> bool, x: T, s: seq<T>): seq<T> {
    if s == [] || !ahead(s[0], x) then [x] + s else [s[0]] + Insert(ahead, x, s[1..])
  }

  function Sort<T>(ahead: (T, T) -> bool, s: seq<T>): seq<T> {
    if s == [] then [] else Insert(ahead, s[0], Sort(ahead, s[1..]))
  }

  lemma {:induction false} InsertKeeps<T>(ahead: (T, T) -> bool, x: T, s: seq<T>, y: T)
    ensures y in Insert(ahead, x, s) <==> y == x || y in s
  {
    if s != [] && ahead(s[0], x) {
      InsertKeeps(ahead, x, s[1..], y);
    }
  }

  lemma {:induction false} InsertSorts<T(!new)>(ahead: (T, T) -> bool, x: T, s: seq<T>)
    requires Orders(ahead) && Sorted(ahead, s)
    ensures Sorted(ahead, Insert(ahead, x, s))
  {
    if s != [] {
      if ahead(s[0], x) {
        InsertSorts(ahead, x, s[1..]);
        var rest := Insert(ahead, x, s[1..]);
        forall j | 0 <= j < |rest| ensures !ahead(rest[j], s[0]) {
          InsertKeeps(ahead, x, s[1..], rest[j]);
        }
      } else {
        forall j | 0 <= j < |s| ensures !ahead(s[j], x) {
          assert j == 0 || !ahead(s[j], s[0]);
        }
      }
    }
  }

  /** A sort keeps the members. */
  lemma {:induction false} SortKeeps<T>(ahead: (T, T) -> bool, s: seq<T>, y: T)
    ensures y in Sort(ahead, s) <==> y in s
  {
    if s != [] {
      InsertKeeps(ahead, s[0], Sort(ahead, s[1..]), y);
      SortKeeps(ahead, s[1..], y);
    }
  }

  lemma {:induction false} SortSorts<T(!new)>(ahead: (T, T) -> bool, s: seq<T>)
    requires Orders(ahead)
    ensures Sorted(ahead, Sort(ahead, s))
  {
    if s != [] {
      SortSorts(ahead, s[1..]);
      InsertSorts(ahead, s[0], Sort(ahead, s[1..]));
    }
  }

  /** The sort is stable: its head is ahead of all that came before it, and behind nothing. */
  lemma {:induction false} HeadIsFirst<T(!new)>(ahead: (T, T) -> bool, s: seq<T>) returns (k: nat)
    requires Orders(ahead) && s != []
    ensures k < |s| && Sort(ahead, s) != [] && Sort(ahead, s)[0] == s[k]
    ensures forall j :: 0 <= j < k ==> ahead(s[k], s[j])
    ensures forall j :: 0 <= j < |s| ==> !ahead(s[j], s[k])
  {
    k := 0;
    if |s| > 1 {
      var m := HeadIsFirst(ahead, s[1..]);
      assert s[1..][m] == s[m + 1];
      if ahead(s[m + 1], s[0]) {
        k := m + 1;
        forall j | 0 <= j < |s| ensures !ahead(s[j], s[k]) && (j < k ==> ahead(s[k], s[j])) {
          assert j > 0 ==> s[j] == s[1..][j - 1];
        }
      } else {
        forall j | 0 <= j < |s| ensures !ahead(s[j], s[0]) {
          assert j > 0 ==> s[j] == s[1..][j - 1];
        }
      }
    }
  }
}
