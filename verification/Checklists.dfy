/** Ordered lists of checks, each with the error that it reports: the form in which the answers of the contracts' entry
    points are written down once more, independently of the functions that compute them. */
module Checklists {
  import opened Prelude

  /** The signed 128-bit range, with its bounds written out. */
  predicate Fits(x: int) {
    -170141183460469231731687303715884105728 <= x <= 170141183460469231731687303715884105727
  }

  datatype Check<+E> = Check(passes: bool, error: E)

  /** `error` belongs to the first check that does not pass. */
  ghost predicate FailsFirst<E>(cs: seq<Check<E>>, error: E) {
    exists i :: 0 <= i < |cs| && !cs[i].passes && cs[i].error == error && forall j :: 0 <= j < i ==> cs[j].passes
  }

  ghost predicate AllPass<E>(cs: seq<Check<E>>) {
    forall i :: 0 <= i < |cs| ==> cs[i].passes
  }

  /** The error of the first check that does not pass. */
  function First<E>(cs: seq<Check<E>>): Option<E> {
    if cs == [] then None
    else
      var before, last := First(cs[..|cs| - 1]), cs[|cs| - 1];
      if before.Some? || last.passes then before else Some(last.error)
  }

  lemma {:induction false} FirstMeaning<E>(cs: seq<Check<E>>, error: E)
    ensures First(cs) == Some(error) <==> FailsFirst(cs, error)
    ensures First(cs).None? <==> AllPass(cs)
  {
    if cs == [] {
    } else {
      var init, last := cs[..|cs| - 1], |cs| - 1;
      FirstMeaning(init, error);
      if FailsFirst(init, error) {
        var i :| 0 <= i < |init| && !init[i].passes && init[i].error == error
                 && forall j :: 0 <= j < i ==> init[j].passes;
        assert !cs[i].passes && cs[i].error == error && forall j :: 0 <= j < i ==> cs[j].passes == init[j].passes;
      }
      if FailsFirst(cs, error) {
        var i :| 0 <= i < |cs| && !cs[i].passes && cs[i].error == error && forall j :: 0 <= j < i ==> cs[j].passes;
        if i < last {
          assert !init[i].passes && forall j :: 0 <= j < i ==> init[j].passes == cs[j].passes;
        } else {
          assert AllPass(init);
        }
      }
      if AllPass(init) {
        assert forall j :: 0 <= j < last ==> cs[j].passes == init[j].passes;
      } else {
        var j :| 0 <= j < last && !init[j].passes;
        assert !cs[j].passes;
      }
    }
  }

  lemma {:induction false} FirstJoin<E>(a: seq<Check<E>>, b: seq<Check<E>>)
    ensures First(a + b) == if First(a).Some? then First(a) else First(b)
    decreases |b|
  {
    if b == [] {
      assert a + b == a;
    } else {
      FirstJoin(a, b[..|b| - 1]);
      assert (a + b)[..|a + b| - 1] == a + b[..|b| - 1];
    }
  }

  lemma FirstOfOne<E>(c: Check<E>)
    ensures First([c]) == if c.passes then None else Some(c.error)
  {
    assert [c][..0] == [];
  }

  lemma FirstOfTwo<E>(c: Check<E>, d: Check<E>)
    ensures First([c, d]) == if !c.passes then Some(c.error) else if !d.passes then Some(d.error) else None
  {
    FirstOfOne(c);
    assert [c, d][..1] == [c];
  }

  lemma FirstOfThree<E>(c: Check<E>, d: Check<E>, e: Check<E>)
    ensures First([c, d, e])
            == if !c.passes then Some(c.error) else if !d.passes then Some(d.error)
               else if !e.passes then Some(e.error) else None
  {
    FirstOfTwo(c, d);
    assert [c, d, e][..2] == [c, d];
  }

  lemma FirstOfFour<E>(c: Check<E>, d: Check<E>, e: Check<E>, f: Check<E>)
    ensures First([c, d, e, f])
            == if !c.passes then Some(c.error) else if !d.passes then Some(d.error)
               else if !e.passes then Some(e.error) else if !f.passes then Some(f.error) else None
  {
    FirstOfThree(c, d, e);
    assert [c, d, e, f][..3] == [c, d, e];
  }
}
