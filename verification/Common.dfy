/** Types and the error codes shared by the kernel modules. */
module Common {

  datatype Option<+T> = None | Some(value: T)

  /** The least index from k on whose element satisfies p. */
  function {:induction false} FindFrom<T>(s: seq<T>, p: T -> bool, k: nat): (r: Option<nat>)
    requires k <= |s|
    ensures r.Some? ==> k <= r.value < |s| && p(s[r.value]) && forall j :: k <= j < r.value ==> !p(s[j])
    ensures r.None? ==> forall j :: k <= j < |s| ==> !p(s[j])
    decreases |s| - k
  {
    if k == |s| then None
    else if p(s[k]) then Some(k)
    else FindFrom(s, p, k + 1)
  }

  const ENOENT := 2
  const EBADF := 9
  const ECHILD := 10
  const ENOMEM := 12
  const ENODEV := 19
  const ENFILE := 23
}
