/** Putting an element into a sequence of distinct ones, taking one out, and the circle they form. */
module Splice {
  ghost predicate Distinct<T>(ns: seq<T>) {
    forall i, j :: 0 <= i < j < |ns| ==> ns[i] != ns[j]
  }

  ghost function After<T>(ns: seq<T>, i: nat): nat
    requires i < |ns|
  {
    if i + 1 < |ns| then i + 1 else 0
  }

  /** `elm` has been put behind the k-th element. */
  ghost function Spliced<T>(ns: seq<T>, k: nat, elm: T): seq<T>
    requires k < |ns|
  {
    ns[..k + 1] + [elm] + ns[k + 1..]
  }

  lemma SplicedAt<T>(ns: seq<T>, k: nat, elm: T, i: nat)
    requires k < |ns| && i <= |ns|
    ensures |Spliced(ns, k, elm)| == |ns| + 1
    ensures Spliced(ns, k, elm)[i] == if i <= k then ns[i] else if i == k + 1 then elm else ns[i - 1]
  {
  }

  lemma SplicedDistinct<T>(ns: seq<T>, k: nat, elm: T)
    requires k < |ns| && Distinct(ns) && elm !in ns
    ensures Distinct(Spliced(ns, k, elm))
  {
    var ms := Spliced(ns, k, elm);
    forall i, j | 0 <= i < j < |ms|
      ensures ms[i] != ms[j]
    {
      SplicedAt(ns, k, elm, i);
      SplicedAt(ns, k, elm, j);
    }
  }

  lemma OtherLinks<T>(ns: seq<T>, k: nat, i: nat)
    requires k < |ns| && i < |ns| && i != k && Distinct(ns)
    ensures ns[i] != ns[k] && ns[After(ns, i)] != ns[After(ns, k)]
  {
  }

  /** The k-th element has been taken out. */
  ghost function Without<T>(ns: seq<T>, k: nat): seq<T>
    requires k < |ns|
  {
    ns[..k] + ns[k + 1..]
  }

  lemma WithoutAt<T>(ns: seq<T>, k: nat, i: nat)
    requires k < |ns| && i < |ns| - 1
    ensures |Without(ns, k)| == |ns| - 1
    ensures Without(ns, k)[i] == if i < k then ns[i] else ns[i + 1]
  {
  }

  lemma WithoutDistinct<T>(ns: seq<T>, k: nat)
    requires 0 < k < |ns| && Distinct(ns)
    ensures Distinct(Without(ns, k)) && Without(ns, k) != []
  {
    forall i, j | 0 <= i < j < |ns| - 1
      ensures Without(ns, k)[i] != Without(ns, k)[j]
    {
      WithoutAt(ns, k, i);
      WithoutAt(ns, k, j);
    }
  }

  lemma ReplacedDistinct<T>(ns: seq<T>, k: nat, elm2: T)
    requires 0 < k < |ns| && Distinct(ns) && elm2 !in ns
    ensures Distinct(ns[k := elm2])
  {
  }
}
