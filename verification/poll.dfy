/** The condition poller `wait.PollImmediate(interval, timeout, condition)`
    as the source uses it: the condition is evaluated at once and then once per
    interval until it holds or the timeout has elapsed. Time is not modelled:
    a poll is given the finite sequence of observations its attempts would
    see before the timeout, and it succeeds iff some attempt is satisfied. */
module Poll {
  import opened Cluster

  /** The index of the first satisfied attempt, if any. */
  function FirstSatisfied<T>(attempts: seq<T>, cond: T -> bool): (r: Option<nat>)
    ensures r.Some? ==> r.value < |attempts| && cond(attempts[r.value])
    ensures r.Some? ==> forall j :: 0 <= j < r.value ==> !cond(attempts[j])
    ensures r.None? ==> forall j :: 0 <= j < |attempts| ==> !cond(attempts[j])
    decreases |attempts|
  {
    if |attempts| == 0 then None
    else if cond(attempts[0]) then Some(0)
    else
      match FirstSatisfied(attempts[1..], cond)
      case None => None
      case Some(k) => Some(k + 1)
  }

  /** The poll returns without error. */
  predicate Succeeds<T>(attempts: seq<T>, cond: T -> bool) {
    FirstSatisfied(attempts, cond).Some?
  }

  /** Number of times the condition is evaluated. */
  function Evaluations<T>(attempts: seq<T>, cond: T -> bool): (n: nat)
    ensures n <= |attempts|
    ensures Succeeds(attempts, cond) ==> n > 0 && cond(attempts[n - 1])
    ensures FirstSatisfied(attempts, cond).Some? ==> n == FirstSatisfied(attempts, cond).value + 1
    ensures FirstSatisfied(attempts, cond).None? ==> n == |attempts|
  {
    match FirstSatisfied(attempts, cond)
    case None => |attempts|
    case Some(k) => k + 1
  }

  /** The poll succeeds exactly when some attempt observes the condition. */
  lemma SucceedsIff<T>(attempts: seq<T>, cond: T -> bool)
    ensures Succeeds(attempts, cond) <==> exists i :: 0 <= i < |attempts| && cond(attempts[i])
  {
  }

  /** "Poll immediately": a condition that already holds is evaluated once
      and the poll succeeds without waiting, whatever follows. */
  lemma Immediacy<T>(attempts: seq<T>, cond: T -> bool)
    requires |attempts| > 0 && cond(attempts[0])
    ensures Succeeds(attempts, cond) && Evaluations(attempts, cond) == 1
  {
  }

  /** Failed reads treated as "not yet" do not end the poll: any number of
      unsatisfied attempts followed by a satisfied one is a success, found at
      that attempt. */
  lemma {:induction false} Tolerance<T>(notYet: seq<T>, ready: T, rest: seq<T>, cond: T -> bool)
    requires forall j :: 0 <= j < |notYet| ==> !cond(notYet[j])
    requires cond(ready)
    ensures FirstSatisfied(notYet + [ready] + rest, cond) == Some(|notYet|)
    decreases |notYet|
  {
    if |notYet| > 0 {
      var s := notYet + [ready] + rest;
      assert s[1..] == notYet[1..] + [ready] + rest;
      Tolerance(notYet[1..], ready, rest, cond);
    }
  }
}
