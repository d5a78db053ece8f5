/** Small helpers shared by the modules of the model. */
module Util {

  datatype Option<T> = None | Some(value: T)

  /** Index of the first element of `s` that satisfies `p`: the shape of
      every "for (i = 0; i < N; i++) if (...) { ...; return; }" scan in the
      drivers and the game. */
  function FirstIndex<T>(s: seq<T>, p: T -> bool): (r: Option<nat>)
    ensures r.Some? ==> r.value < |s| && p(s[r.value])
    ensures r.Some? ==> forall k :: 0 <= k < r.value ==> !p(s[k])
    ensures r.None? <==> forall k :: 0 <= k < |s| ==> !p(s[k])
  {
    if |s| == 0 then None
    else if p(s[0]) then Some(0)
    else match FirstIndex(s[1..], p)
      case None => None
      case Some(k) => Some(k + 1)
  }

  /** The byte whose value is n, built by counting so that the conversion
      from a number to a bit-vector stays out of the contexts that use it. */
  function ByteOf(n: nat): bv8
    requires n < 256
  {
    if n == 0 then 0 else ByteOf(n - 1) + 1
  }

  lemma {:induction false} ByteOfValue(n: nat)
    requires n < 256
    ensures ByteOf(n) as int == n
  {
    if n > 0 {
      ByteOfValue(n - 1);
      ByteSucc(ByteOf(n - 1));
    }
  }

  lemma ByteSucc(b: bv8)
    requires b as int < 255
    ensures (b + 1) as int == b as int + 1
  {
  }
}
