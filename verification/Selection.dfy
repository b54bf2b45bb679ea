/** Lists picked out of other lists in their order. */
module Selection {

  /** `out` holds the elements of `src` at the places `at`, which increase and are below `n`. */
  ghost predicate Picks<T(!new)>(out: seq<T>, src: seq<T>, at: seq<nat>, n: nat) {
    && |at| == |out| && n <= |src|
    && (forall j :: 0 <= j < |at| ==> at[j] < n && out[j] == src[at[j]])
    && (forall i, j :: 0 <= i < j < |at| ==> at[i] < at[j])
  }

  lemma {:induction false} PicksNone<T(!new)>(src: seq<T>)
    ensures Picks([], src, [], 0)
  {
  }

  lemma {:induction false} PicksNext<T(!new)>(out: seq<T>, src: seq<T>, at: seq<nat>, n: nat)
    requires Picks(out, src, at, n) && n < |src|
    ensures Picks(out, src, at, n + 1)
    ensures Picks(out + [src[n]], src, at + [n], n + 1)
    ensures n !in at && forall i :: i in at + [n] <==> i in at || i == n
  {
  }

  lemma {:induction false} PicksOfPrefix<T(!new)>(out: seq<T>, src: seq<T>, at: seq<nat>, n: nat)
    requires n <= |src| && Picks(out, src[..n], at, n)
    ensures Picks(out, src, at, n)
  {
  }
}
