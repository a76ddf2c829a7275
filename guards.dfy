/** Ordered validation: a list of checks, each with the error it reports; the
    first failing check decides, and only a list with no failure lets the
    visitor proceed. The forms' early-return guard chains are proved equal to
    this reading of their check lists. */
module Guards {
  import opened Wrappers

  datatype Check<+E> = Check(passes: bool, error: E)

  /** The verdict of the first failing check, or `Proceed` when all pass. */
  function FirstFailure<E>(checks: seq<Check<E>>): (r: Verdict<E>)
    ensures r.Proceed? <==> forall k :: 0 <= k < |checks| ==> checks[k].passes
    ensures r.Blocked? ==> exists k :: 0 <= k < |checks| && !checks[k].passes && checks[k].error == r.reason
    decreases |checks|
  {
    if checks == [] then Proceed
    else if !checks[0].passes then Blocked(checks[0].error)
    else
      var r := FirstFailure(checks[1..]);
      assert forall k :: 1 <= k < |checks| ==> checks[k] == checks[1..][k - 1];
      r
  }

  /** A failing check whose predecessors all pass is the one reported, whatever
      the checks after it say. */
  lemma {:induction false} FirstFailureAt<E>(checks: seq<Check<E>>, k: nat)
    requires k < |checks| && !checks[k].passes
    requires forall j :: 0 <= j < k ==> checks[j].passes
    ensures FirstFailure(checks) == Blocked(checks[k].error)
    decreases k
  {
    if k > 0 {
      assert checks[1..][k - 1] == checks[k];
      FirstFailureAt(checks[1..], k - 1);
    }
  }

  /** Four checks in a row read as an early-return chain. */
  lemma FirstFailureOfFour<E>(c0: Check<E>, c1: Check<E>, c2: Check<E>, c3: Check<E>)
    ensures FirstFailure([c0, c1, c2, c3]) ==
      if !c0.passes then Blocked(c0.error)
      else if !c1.passes then Blocked(c1.error)
      else if !c2.passes then Blocked(c2.error)
      else if !c3.passes then Blocked(c3.error)
      else Proceed
  {
    var checks := [c0, c1, c2, c3];
    if !c0.passes {
      FirstFailureAt(checks, 0);
    } else if !c1.passes {
      FirstFailureAt(checks, 1);
    } else if !c2.passes {
      FirstFailureAt(checks, 2);
    } else if !c3.passes {
      FirstFailureAt(checks, 3);
    }
  }
}
