/** Small definitions that several components share. */
module Common {

  datatype Option<+T> = None | Some(value: T)

  /** COutPoint. */
  datatype OutPoint = OutPoint(hash: nat, n: nat)

  type byte = x: int | 0 <= x < 256

  function Pow2(n: nat): (p: nat)
    ensures p > 0
  {
    if n == 0 then 1 else 2 * Pow2(n - 1)
  }

  lemma {:induction false} Powers()
    ensures Pow2(0) == 1 && Pow2(1) == 2 && Pow2(2) == 4 && Pow2(3) == 8 && Pow2(4) == 16
    ensures Pow2(5) == 32 && Pow2(6) == 64 && Pow2(7) == 128 && Pow2(8) == 256
  {
  }

  /** `v` without its low `k` bits. */
  function Shr(v: nat, k: nat): nat {
    if k == 0 then v else Shr(v / 2, k - 1)
  }

  function Zeros(n: nat): seq<bool> { seq(n, _ => false) }

  function ZeroBytes(n: nat): seq<byte> { seq(n, _ => 0) }
}
