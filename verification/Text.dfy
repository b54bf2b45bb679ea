/** Substrings as Python's `in` and str.split() see them. */
module Text {

  predicate OccursAt(s: string, m: string, i: nat) { i + |m| <= |s| && s[i..i + |m|] == m }

  /** The first place at or after `i` where `m` occurs; |s| + 1 when there is none. */
  function Find(s: string, m: string, i: nat): (k: nat)
    requires i <= |s| + 1
    ensures i <= k <= |s| + 1
    ensures k <= |s| ==> OccursAt(s, m, k)
    ensures forall j: nat :: i <= j < k ==> !OccursAt(s, m, j)
    decreases |s| + 1 - i
  {
    if i > |s| || OccursAt(s, m, i) then i else Find(s, m, i + 1)
  }

  /** m in s */
  predicate Contains(s: string, m: string)
    ensures Contains(s, m) <==> exists i: nat :: OccursAt(s, m, i)
  {
    Find(s, m, 0) <= |s|
  }

  /** s.split(m)[-1] */
  function LastPiece(s: string, m: string): string
    requires m != ""
    decreases |s|
  {
    var k := Find(s, m, 0);
    if k > |s| then s else LastPiece(s[k + |m|..], m)
  }

  /** No proper prefix of `m` is a suffix of it, so occurrences of `m` never overlap. */
  predicate Borderless(m: string) {
    forall d :: 0 < d < |m| ==> m[d..] != m[..|m| - d]
  }

  lemma {:induction false} LastPieceHasNone(s: string, m: string)
    requires m != ""
    ensures !Contains(LastPiece(s, m), m)
    decreases |s|
  {
    var k := Find(s, m, 0);
    if k <= |s| { LastPieceHasNone(s[k + |m|..], m); }
  }

  /** Splitting at a borderless text finds the piece after its last occurrence. */
  lemma {:induction false} LastPieceAfter(a: string, m: string, b: string)
    requires m != "" && Borderless(m) && !Contains(b, m)
    ensures LastPiece(a + m + b, m) == b
    decreases |a|
  {
    var s := a + m + b;
    assert s[|a|..|a| + |m|] == m;
    assert OccursAt(s, m, |a|);
    var k := Find(s, m, 0);
    if k == |a| {
      assert s[k + |m|..] == b;
      assert Find(b, m, 0) > |b|;
    } else {
      NoOverlap(s, m, k, |a|);
      assert s[k + |m|..] == a[k + |m|..] + m + b;
      LastPieceAfter(a[k + |m|..], m, b);
    }
  }

  /** Where two occurrences overlap, the second one's start is the first one's end. */
  lemma {:induction false} Overlap(s: string, m: string, i: nat, j: nat)
    requires i <= j < i + |m| && OccursAt(s, m, i) && OccursAt(s, m, j)
    ensures m[j - i..] == m[..|m| - (j - i)]
  {
    var d := j - i;
    assert m[d..] == s[i..i + |m|][d..] == s[j..i + |m|];
    assert m[..|m| - d] == s[j..j + |m|][..|m| - d] == s[j..i + |m|];
  }

  lemma {:induction false} NoOverlap(s: string, m: string, i: nat, j: nat)
    requires Borderless(m) && i < j && OccursAt(s, m, i) && OccursAt(s, m, j)
    ensures i + |m| <= j
  {
    if j < i + |m| { Overlap(s, m, i, j); }
  }

  /** Text found in `a + b`, where `a` neither holds it nor ends in the start of it, is in `b`. */
  lemma {:induction false} InSecond(a: string, b: string, m: string)
    requires forall i: nat :: i < |a| ==> !OccursAt(a + b, m, i)
    ensures Contains(a + b, m) <==> Contains(b, m)
  {
    var s := a + b;
    if i: nat :| OccursAt(s, m, i) {
      assert b[i - |a|..i - |a| + |m|] == s[i..i + |m|];
      assert OccursAt(b, m, i - |a|);
    }
    if i: nat :| OccursAt(b, m, i) {
      assert s[i + |a|..i + |a| + |m|] == b[i..i + |m|];
      assert OccursAt(s, m, i + |a|);
    }
  }
}
