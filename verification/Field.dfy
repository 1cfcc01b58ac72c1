/** The BN254 scalar field as the circuit, the sequencer and the contracts see it. */
module Field {

  /** Order of the scalar field; every hash input and output is a canonical representative below it. */
  const Q: nat := 21888242871839275222246405745257275088548364400416034343698204186575808495617

  type Fe = x: int | 0 <= x < Q

  /** The sponge that every component uses.  Nothing is assumed about it: each theorem holds for all such functions. */
  type Hash = seq<Fe> -> Fe

  /** fr.Element.SetBigInt: the canonical representative of any integer. */
  function Reduce(x: int): Fe {
    x % Q
  }

  function ReduceAll(xs: seq<int>): seq<Fe> {
    seq(|xs|, i requires 0 <= i < |xs| => Reduce(xs[i]))
  }

  /** Two hash computations, given as the lists of inputs they hash, disagree on an input but agree on its digest. */
  predicate Clash(h: Hash, xs: seq<seq<Fe>>, ys: seq<seq<Fe>>) {
    exists k | 0 <= k < |xs| && k < |ys| :: xs[k] != ys[k] && h(xs[k]) == h(ys[k])
  }

  function Pow2(n: nat): nat
    ensures Pow2(n) > 0
  {
    if n == 0 then 1 else 2 * Pow2(n - 1)
  }
}
