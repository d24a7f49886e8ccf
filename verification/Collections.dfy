/** What several modules need of collections. */
module Collections {

  datatype Option<+T> = None | Some(value: T)

  ghost predicate Distinct<T>(s: seq<T>) {
    forall i, j :: 0 <= i < j < |s| ==> s[i] != s[j]
  }

  /** The elements of s at the given positions, in order. */
  ghost predicate Picks<T>(s: seq<T>, at: seq<nat>, picked: seq<T>) {
    && |at| == |picked|
    && (forall j, k :: 0 <= j < k < |at| ==> at[j] < at[k])
    && (forall k :: 0 <= k < |at| ==> at[k] < |s| && picked[k] == s[at[k]])
  }

  lemma {:induction false} PicksNext<T>(s: seq<T>, at: seq<nat>, picked: seq<T>)
    requires s != [] && Picks(s[..|s| - 1], at, picked)
    ensures Picks(s, at, picked) && Picks(s, at + [|s| - 1], picked + [s[|s| - 1]])
    ensures |s| - 1 !in at
  {
  }

  /** A matrix, as the sequence of its rows, with the given numbers of rows and columns. */
  ghost predicate Shaped<T>(m: seq<seq<T>>, rows: nat, cols: nat) {
    |m| == rows && forall r :: 0 <= r < rows ==> |m[r]| == cols
  }
}
