/** Keyed edits applied one after another: the shape shared by index updates and dataset updates. */
module Patches {
  import opened Model

  /** Set `path` to a value, or remove it. */
  datatype Edit<+V> = Edit(path: string, value: Option<V>)

  function Apply1<V>(m: map<string, V>, e: Edit<V>): map<string, V> {
    match e.value
    case Some(v) => m[e.path := v]
    case None => m - {e.path}
  }

  function Apply<V>(m: map<string, V>, es: seq<Edit<V>>): map<string, V>
    decreases |es|
  {
    if es == [] then m else Apply1(Apply(m, es[..|es| - 1]), es[|es| - 1])
  }

  ghost predicate Touches<V>(es: seq<Edit<V>>, p: string) {
    exists i :: 0 <= i < |es| && es[i].path == p
  }

  ghost predicate Distinct<V>(es: seq<Edit<V>>) {
    forall i, j :: 0 <= i < j < |es| ==> es[i].path != es[j].path
  }

  lemma {:induction false} ApplyUntouched<V>(m: map<string, V>, es: seq<Edit<V>>, p: string)
    requires !Touches(es, p)
    ensures Lookup(Apply(m, es), p) == Lookup(m, p)
    decreases |es|
  {
    if es != [] {
      var before := es[..|es| - 1];
      assert es[|es| - 1].path != p;
      assert forall i :: 0 <= i < |before| ==> before[i] == es[i];
      ApplyUntouched(m, before, p);
    }
  }

  /** What an edit list makes of a path depends on that path alone. */
  lemma {:induction false} ApplyPointwise<V>(a: map<string, V>, b: map<string, V>, es: seq<Edit<V>>, p: string)
    requires Lookup(a, p) == Lookup(b, p)
    ensures Lookup(Apply(a, es), p) == Lookup(Apply(b, es), p)
    decreases |es|
  {
    if es != [] { ApplyPointwise(a, b, es[..|es| - 1], p); }
  }

  lemma {:induction false} ApplyTouched<V>(m: map<string, V>, es: seq<Edit<V>>, i: nat)
    requires Distinct(es) && i < |es|
    ensures Lookup(Apply(m, es), es[i].path) == es[i].value
    decreases |es|
  {
    var before := es[..|es| - 1];
    if i < |before| {
      assert before[i] == es[i];
      ApplyTouched(m, before, i);
    }
  }

  /** Distinct edits may be applied in any order: only which edits occur matters. */
  lemma {:induction false} ApplyAnyOrder<V>(m: map<string, V>, a: seq<Edit<V>>, b: seq<Edit<V>>)
    requires Distinct(a) && Distinct(b)
    requires forall e :: e in a <==> e in b
    ensures Apply(m, a) == Apply(m, b)
  {
    var ma, mb := Apply(m, a), Apply(m, b);
    forall p ensures Lookup(ma, p) == Lookup(mb, p) {
      if Touches(a, p) {
        var i :| 0 <= i < |a| && a[i].path == p;
        assert a[i] in b;
        var j :| 0 <= j < |b| && b[j] == a[i];
        ApplyTouched(m, a, i);
        ApplyTouched(m, b, j);
      } else {
        assert forall j :: 0 <= j < |b| ==> b[j] in a;
        ApplyUntouched(m, a, p);
        ApplyUntouched(m, b, p);
      }
    }
    SameLookups(ma, mb);
  }

  lemma {:induction false} SameLookups<V>(a: map<string, V>, b: map<string, V>)
    requires forall p :: Lookup(a, p) == Lookup(b, p)
    ensures a == b
  {
    forall p ensures p in a <==> p in b { assert Lookup(a, p) == Lookup(b, p); }
    forall p | p in a ensures a[p] == b[p] { assert Lookup(a, p) == Lookup(b, p); }
  }

  /** Applying some prefix of distinct edits first, then all of the same edits in any order, is
      the same as applying them once. */
  lemma {:induction false} ApplyAfterPartial<V>(m: map<string, V>, a: seq<Edit<V>>, k: nat, b: seq<Edit<V>>)
    requires Distinct(a) && Distinct(b) && k <= |a|
    requires forall e :: e in a <==> e in b
    ensures Apply(Apply(m, a[..k]), b) == Apply(m, a)
  {
    var part, once := Apply(m, a[..k]), Apply(m, b);
    forall p ensures Lookup(Apply(part, b), p) == Lookup(once, p) {
      if Touches(b, p) {
        var j :| 0 <= j < |b| && b[j].path == p;
        ApplyTouched(part, b, j);
        ApplyTouched(m, b, j);
      } else {
        assert forall i :: 0 <= i < k ==> a[..k][i] == a[i] && a[i] in b;
        ApplyUntouched(part, b, p);
        ApplyUntouched(m, b, p);
        ApplyUntouched(m, a[..k], p);
      }
    }
    SameLookups(Apply(part, b), once);
    ApplyAnyOrder(m, a, b);
  }
}
