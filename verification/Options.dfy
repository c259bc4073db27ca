/** A value that may be absent: Python's `None` for the fields typed `Optional`. */
module Options {
  datatype Option<+T> = None | Some(value: T) {
    function GetOr(default: T): T {
      match this
      case Some(v) => v
      case None => default
    }
  }

  function Max(a: int, b: int): int {
    if a < b then b else a
  }

  function Min(a: int, b: int): int {
    if a < b then a else b
  }

  lemma Regroup<T>(a: seq<T>, b: seq<T>, c: seq<T>)
    ensures (a + b) + c == a + (b + c)
  {
  }

  /** Strictly increasing, and below `n`. */
  predicate Ascending(s: seq<nat>, n: nat) {
    && (forall a :: 0 <= a < |s| ==> s[a] < n)
    && (forall a, b :: 0 <= a < b < |s| ==> s[a] < s[b])
  }
}
