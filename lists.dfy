/** The list operations the sync script builds its results with: the
    `for ... continue ... push` selection, `filter(Boolean)` and the
    all-or-nothing `Promise.all`. */
module Lists {
  import opened Wrappers

  /** The elements of `s` that satisfy `p`, in order: what a loop that
      skips the others with `continue` and pushes the rest collects. */
  function Filter<T>(p: T -> bool, s: seq<T>): (r: seq<T>)
    ensures forall i :: 0 <= i < |r| ==> p(r[i])
    decreases |s|
  {
    if |s| == 0 then [] else Filter(p, s[..|s| - 1]) + (if p(s[|s| - 1]) then [s[|s| - 1]] else [])
  }

  /** An element is kept exactly when it is in `s` and satisfies `p`. */
  lemma {:induction false} FilterMembers<T>(p: T -> bool, s: seq<T>)
    ensures forall x :: x in Filter(p, s) <==> x in s && p(x)
    ensures |Filter(p, s)| <= |s|
    decreases |s|
  {
    if |s| > 0 {
      FilterMembers(p, s[..|s| - 1]);
      assert s == s[..|s| - 1] + [s[|s| - 1]];
    }
  }

  /** Filtering keeps order: it distributes over concatenation. */
  lemma {:induction false} FilterAppend<T>(p: T -> bool, a: seq<T>, b: seq<T>)
    ensures Filter(p, a + b) == Filter(p, a) + Filter(p, b)
    decreases |b|
  {
    if |b| == 0 {
      assert a + b == a;
    } else {
      var b' := b[..|b| - 1];
      assert (a + b)[..|a + b| - 1] == a + b';
      FilterAppend(p, a, b');
    }
  }

  /** `filter(Boolean)` over `Promise.all`'s results: the loaded values, in
      order, without the `undefined`s. */
  function Somes<T>(rs: seq<Option<T>>): seq<T>
    decreases |rs|
  {
    if |rs| == 0 then [] else Somes(rs[..|rs| - 1]) + (if rs[|rs| - 1].Some? then [rs[|rs| - 1].value] else [])
  }

  lemma {:induction false} SomesMembers<T>(rs: seq<Option<T>>)
    ensures forall x :: x in Somes(rs) <==> Some(x) in rs
    ensures |Somes(rs)| <= |rs|
    decreases |rs|
  {
    if |rs| > 0 {
      SomesMembers(rs[..|rs| - 1]);
      assert rs == rs[..|rs| - 1] + [rs[|rs| - 1]];
    }
  }

  lemma {:induction false} SomesAppend<T>(a: seq<Option<T>>, b: seq<Option<T>>)
    ensures Somes(a + b) == Somes(a) + Somes(b)
    decreases |b|
  {
    if |b| == 0 {
      assert a + b == a;
    } else {
      var b' := b[..|b| - 1];
      assert (a + b)[..|a + b| - 1] == a + b';
      SomesAppend(a, b');
    }
  }

  /** `await Promise.all(results)` where a result may reject: all the values
      in order when every one resolved, nothing when one rejected. */
  function AllPresent<T>(rs: seq<Option<T>>): (r: Option<seq<T>>)
    ensures r.Some? <==> forall i :: 0 <= i < |rs| ==> rs[i].Some?
    ensures r.Some? ==> |r.value| == |rs| && forall i :: 0 <= i < |rs| ==> rs[i] == Some(r.value[i])
    decreases |rs|
  {
    if |rs| == 0 then Some([])
    else
      var init := AllPresent(rs[..|rs| - 1]);
      if init.Some? && rs[|rs| - 1].Some? then Some(init.value + [rs[|rs| - 1].value]) else None
  }

  /** When nothing rejected, the two ways of collecting agree. */
  lemma {:induction false} AllPresentIsSomes<T>(rs: seq<Option<T>>)
    requires AllPresent(rs).Some?
    ensures AllPresent(rs).value == Somes(rs)
    decreases |rs|
  {
    if |rs| > 0 {
      AllPresentIsSomes(rs[..|rs| - 1]);
    }
  }
}
