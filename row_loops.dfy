/**
 * The per-row step shared by the three weight-update loops of the training code
 * (SGDTwoHiddenLayer.rowWiseUpdate, SGDSingleLayer.train, LinearAlgebra.trainStep): row j of
 * the weights, |prev| entries from j * |prev| on, gets -lr times prev * delta[j] added to it.
 */
module RowLoops {
  import S = LinAlgSpec
  import K = Kernels

  /**
   * One pass of a row loop. `scaled` already holds prev * delta[j]; adding -lr times it in
   * place into the row (the pointer form of multiplied(by:plus:), or vDSP_vsma with the row
   * as both C and D) takes the weights after j rows to the weights after j + 1 rows.
   */
  method AddScaledRow(t: array<real>, scaled: array<real>, lr: real, base: nat,
                      ghost w: seq<real>, ghost delta: seq<real>, ghost prev: seq<real>, ghost j: nat)
    requires j < |delta| && |delta| * |prev| <= |w| && base == j * |prev|
    requires t != scaled && scaled[..] == S.Scale(prev, delta[j])
    requires t[..] == S.PartialOuterUpdate(w, delta, prev, lr, j)
    modifies t
    ensures t[..] == S.PartialOuterUpdate(w, delta, prev, lr, j + 1)
  {
    S.PartialOuterUpdateStep(w, delta, prev, lr, j, base, t[..]);
    AddInto(t, scaled, -lr, base, S.PartialOuterUpdate(w, delta, prev, lr, j + 1));
  }

  /** a * s added into the a.Length entries of t from off on, producing the state target. */
  method AddInto(t: array<real>, a: array<real>, s: real, off: nat, ghost target: seq<real>)
    requires t != a && off + a.Length <= t.Length
    requires target == t[..][..off] + S.Axpy(a[..], s, t[..][off..off + a.Length]) + t[..][off + a.Length..]
    modifies t
    ensures t[..] == target
  {
    K.VsmaInPlace(a, s, t, off);
  }
}
