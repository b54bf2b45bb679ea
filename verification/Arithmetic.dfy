module Arithmetic {

  lemma {:induction false} MulMono(a: int, b: int, k: int)
    requires a <= b && k > 0
    ensures a * k <= b * k
  {
  }
}
