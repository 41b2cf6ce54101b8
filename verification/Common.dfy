// Types shared by every module.
module Common {

  datatype Option<+T> = None | Some(value: T)

  datatype Result<+T, +E> = Ok(value: T) | Err(error: E)

  type Byte = b: int | 0 <= b < 256

  type Bytes = seq<Byte>

  function Lookup<K, V>(m: map<K, V>, k: K): Option<V> {
    if k in m then Some(m[k]) else None
  }

  ghost predicate NoDuplicates<T>(s: seq<T>) {
    forall i, j :: 0 <= i < j < |s| ==> s[i] != s[j]
  }

  // `f` on every element, or its first failure.
  function Each<A, B, E>(s: seq<A>, f: A -> Result<B, E>): (r: Result<seq<B>, E>)
    ensures r.Ok? ==> |r.value| == |s| && forall i :: 0 <= i < |s| ==> f(s[i]) == Ok(r.value[i])
    ensures r.Err? ==> exists i :: 0 <= i < |s| && f(s[i]) == Err(r.error)
  {
    if s == [] then Ok([])
    else
      var n := |s| - 1;
      match Each(s[..n], f)
      case Err(e) => Err(e)
      case Ok(before) =>
        match f(s[n])
        case Err(e) => Err(e)
        case Ok(b) => Ok(before + [b])
  }

  // What fails on a part fails alike on the whole.
  lemma {:induction false} EachFails<A, B, E>(s: seq<A>, f: A -> Result<B, E>, n: nat)
    requires n <= |s| && Each(s[..n], f).Err?
    ensures Each(s, f) == Each(s[..n], f)
    decreases |s|
  {
    if n == |s| {
      assert s[..n] == s;
    } else {
      var init := s[..|s| - 1];
      assert init[..n] == s[..n];
      EachFails(init, f, n);
    }
  }
}
