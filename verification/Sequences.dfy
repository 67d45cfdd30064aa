/** Searching a slice and deleting from it in place. */
module Sequences {
  ghost predicate Distinct<T>(s: seq<T>) {
    forall i, j | 0 <= i < j < |s| :: s[i] != s[j]
  }

  /** The first index that holds x, or |s|. */
  function IndexOf<T(==)>(s: seq<T>, x: T): (p: nat)
    ensures p <= |s|
    ensures p < |s| ==> s[p] == x
    ensures forall i | 0 <= i < p :: s[i] != x
  {
    if s == [] then 0 else if s[0] == x then 0 else 1 + IndexOf(s[1..], x)
  }

  predicate Contains<T(==)>(s: seq<T>, x: T) {
    IndexOf(s, x) < |s|
  }

  function DeleteAt<T>(s: seq<T>, k: nat): seq<T>
    requires k < |s|
  {
    s[..k] + s[k + 1..]
  }

  /** s without the first x. */
  function RemoveFirst<T(==)>(s: seq<T>, x: T): seq<T> {
    var p := IndexOf(s, x);
    if p < |s| then DeleteAt(s, p) else s
  }

  lemma Regroup<T>(a: seq<T>, b: seq<T>, c: seq<T>)
    ensures a + (b + c) == (a + b) + c
  {
  }

  lemma DeletedElements<T>(s: seq<T>, k: nat)
    requires k < |s|
    ensures |DeleteAt(s, k)| == |s| - 1
    ensures forall i | 0 <= i < |s| - 1 :: DeleteAt(s, k)[i] == s[if i < k then i else i + 1]
  {
  }

  lemma RemovedElements<T>(s: seq<T>, x: T)
    ensures var p, rest := IndexOf(s, x), RemoveFirst(s, x);
            && |rest| == (if p < |s| then |s| - 1 else |s|)
            && forall i | 0 <= i < |rest| :: rest[i] == s[if i < p then i else i + 1]
  {
    if IndexOf(s, x) < |s| { DeletedElements(s, IndexOf(s, x)); }
  }

  lemma RemovedContains<T>(s: seq<T>, x: T, y: T)
    requires Distinct(s)
    ensures Contains(RemoveFirst(s, x), y) <==> Contains(s, y) && y != x
  {
    RemovedElements(s, x);
    var p, k, rest := IndexOf(s, x), IndexOf(s, y), RemoveFirst(s, x);
    if p < |s| && k < |s| && y != x {
      assert rest[if k < p then k else k - 1] == y;
    }
  }

  lemma RemovedDistinct<T>(s: seq<T>, x: T)
    requires Distinct(s)
    ensures Distinct(RemoveFirst(s, x))
  {
  }

  lemma AppendContains<T>(s: seq<T>, x: T, y: T)
    ensures Contains(s + [x], y) <==> Contains(s, y) || y == x
  {
    var longer := s + [x];
    assert longer[|s|] == x;
    if Contains(s, y) { assert longer[IndexOf(s, y)] == y; }
    if Contains(longer, y) && IndexOf(longer, y) < |s| { assert s[IndexOf(longer, y)] == y; }
  }

  /** at lists, in order, the places of the true flags. */
  ghost predicate TrueAt(at: seq<nat>, flags: seq<bool>) {
    && (forall j, k | 0 <= j < k < |at| :: at[j] < at[k])
    && (forall k | 0 <= k < |at| :: at[k] < |flags| && flags[at[k]])
    && (forall i | 0 <= i < |flags| && flags[i] :: i in at)
  }

  lemma TrueAtNext(at: seq<nat>, flags: seq<bool>)
    requires flags != [] && TrueAt(at, flags[..|flags| - 1])
    ensures TrueAt(if flags[|flags| - 1] then at + [|flags| - 1] else at, flags)
  {
    var n := |flags| - 1;
    if flags[n] { assert (at + [n])[|at|] == n; }
    forall i | 0 <= i < |flags| && flags[i] ensures i in at || (i == n && flags[n]) {
      if i < n { assert flags[..n][i]; }
    }
  }
}
