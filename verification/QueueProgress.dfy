/** Without submissions the queue can only do a bounded amount of work. */
module QueueProgress {
  import opened Common
  import opened Counting
  import opened BuildQueue
  import opened QueueFacts

  function Pendings(q: Queue): set<nat>
  {
    set w | w in q.schedulers && q.schedulers[w].pending.Some?
  }

  /** Claims and outcomes left in the jobs, and in the jobs that pending requests will become. */
  function Measure(q: Queue, l: Limits): nat
  {
    Sum(q.jobs, Weight(l)) + 2 * l.maxAttempts * |Pendings(q)|
  }

  predicate IsSubmission(a: Action)
  {
    a.DoEnqueue? || a.DoSubmit?
  }

  /** Every job a finished build starts uses up one pending request. */
  lemma FinalizeSpendsPending(q: Queue, id: nat, succeeded: bool)
    ensures var after := FinalizeBuild(q, id, succeeded);
            |after.jobs| + |Pendings(after)| <= |q.jobs| + |Pendings(q)|
  {
    var after := FinalizeBuild(q, id, succeeded);
    if id in q.builds {
      var w := q.builds[id].workspace;
      assert Pendings(after) == Pendings(q) - {w};
      if SchedulerOf(q, w).pending.Some? {
        assert w in Pendings(q);
      } else {
        SubsetIsSmaller(Pendings(after), Pendings(q));
      }
    }
  }

  lemma {:induction false} FinalizeAllSpendsPending(q: Queue, order: seq<nat>)
    ensures var after := FinalizeAll(q, order);
            |after.jobs| + |Pendings(after)| <= |q.jobs| + |Pendings(q)|
  {
    if order != [] {
      FinalizeAllSpendsPending(q, order[..|order|-1]);
      FinalizeSpendsPending(FinalizeAll(q, order[..|order|-1]), order[|order|-1], false);
    }
  }

  lemma PerformSpendsPending(q: Queue, l: Limits, a: Action)
    requires !IsSubmission(a)
    ensures |Perform(q, l, a).jobs| + |Pendings(Perform(q, l, a))| <= |q.jobs| + |Pendings(q)|
  {
    var after := Perform(q, l, a);
    match a {
      case DoRecover(order) =>
        assert Pendings(RecoverJobs(q, l)) == Pendings(q);
        FinalizeAllSpendsPending(RecoverJobs(q, l), order);
      case DoComplete(id, worker, verdict) =>
        if LeaseProblem(q, id, worker).None? && !q.jobs[id].cancelRequested {
          var told := WithJob(q, id, Settled(q.jobs[id], l, verdict));
          assert Pendings(told) == Pendings(q);
          FinalizeSpendsPending(told, id, told.jobs[id].state.Succeeded?);
        }
      case _ =>
        SubsetIsSmaller(Pendings(after), Pendings(q));
    }
  }

  lemma OneMore(each: nat, k: nat)
    ensures each * k + each == each * (k + 1)
  {
  }

  lemma {:induction false} SumOfAppended(jobs: seq<Job>, n: nat, l: Limits)
    requires n <= |jobs| && forall i :: n <= i < |jobs| ==> Appended(jobs[i])
    ensures Sum(jobs, Weight(l)) == Sum(jobs[..n], Weight(l)) + 2 * l.maxAttempts * (|jobs| - n)
  {
    if n == |jobs| {
      assert jobs[..n] == jobs;
    } else {
      SumOfAppended(jobs[..|jobs|-1], n, l);
      assert jobs[..|jobs|-1][..n] == jobs[..n];
      OneMore(2 * l.maxAttempts, |jobs| - 1 - n);
    }
  }

  lemma Scale(max: nat, added: nat, after: nat, before: nat)
    requires added + after <= before
    ensures 2 * max * added + 2 * max * after <= 2 * max * before
  {
    assert 2 * max * added + 2 * max * after == 2 * max * (added + after);
  }

  ghost predicate ChangesState(q: Queue, l: Limits, a: Action)
  {
    exists i :: 0 <= i < |q.jobs| && i < |Perform(q, l, a).jobs| && Perform(q, l, a).jobs[i].state != q.jobs[i].state
  }

  lemma KeptRowsLoseWeight(before: seq<Job>, after: seq<Job>, l: Limits, claimed: Option<nat>)
    requires JobsEvolve(before, after, l, claimed) && forall i :: 0 <= i < |before| ==> JobOk(before[i], l)
    ensures var kept := after[..|before|];
            Sum(kept, Weight(l)) <= Sum(before, Weight(l))
            && ((exists i :: 0 <= i < |before| && after[i].state != before[i].state)
                ==> Sum(kept, Weight(l)) < Sum(before, Weight(l)))
  {
    var kept := after[..|before|];
    forall i | 0 <= i < |before|
      ensures Weight(l)(kept[i]) <= Weight(l)(before[i])
      ensures after[i].state != before[i].state ==> Weight(l)(kept[i]) < Weight(l)(before[i])
    {
      assert Evolves(before[i], after[i], l, claimed == Some(i));
    }
    SumShrinks(before, kept, Weight(l));
    if i :| 0 <= i < |before| && after[i].state != before[i].state {
      assert Weight(l)(kept[i]) < Weight(l)(before[i]);
    }
  }

  /** Lawful changes of the rows, with every new one paid for by a pending request, never raise the measure. */
  lemma EvolutionLowersMeasure(q: Queue, after: Queue, l: Limits, claimed: Option<nat>)
    requires JobsEvolve(q.jobs, after.jobs, l, claimed) && forall i :: 0 <= i < |q.jobs| ==> JobOk(q.jobs[i], l)
    requires |after.jobs| + |Pendings(after)| <= |q.jobs| + |Pendings(q)|
    ensures Measure(after, l) <= Measure(q, l)
    ensures (exists i :: 0 <= i < |q.jobs| && after.jobs[i].state != q.jobs[i].state)
            ==> Measure(after, l) < Measure(q, l)
  {
    KeptRowsLoseWeight(q.jobs, after.jobs, l, claimed);
    SumOfAppended(after.jobs, |q.jobs|, l);
    Scale(l.maxAttempts, |after.jobs| - |q.jobs|, |Pendings(after)|, |Pendings(q)|);
  }

  /** No step but a submission raises the measure, and every claim, requeue and outcome lowers it. */
  lemma PerformLowersMeasure(q: Queue, l: Limits, a: Action)
    requires Positive(l) && SafeQueue(q, l) && !IsSubmission(a)
    ensures Measure(Perform(q, l, a), l) <= Measure(q, l)
    ensures ChangesState(q, l, a) ==> Measure(Perform(q, l, a), l) < Measure(q, l)
  {
    PerformEvolves(q, l, a);
    PerformSpendsPending(q, l, a);
    EvolutionLowersMeasure(q, Perform(q, l, a), l, ClaimedBy(q, l, a));
  }

  /** How many steps of a run change some job's state. */
  ghost function Transitions(q: Queue, l: Limits, actions: seq<Action>): nat
  {
    if actions == [] then 0
    else Transitions(q, l, actions[..|actions|-1]) +
         if ChangesState(Run(q, l, actions[..|actions|-1]), l, actions[|actions|-1]) then 1 else 0
  }

  /** A run without submissions makes at most as many job transitions as the measure it starts with. */
  lemma {:induction false} WorkIsBounded(q: Queue, l: Limits, actions: seq<Action>)
    requires Positive(l) && SafeQueue(q, l) && forall a :: a in actions ==> !IsSubmission(a)
    ensures Transitions(q, l, actions) + Measure(Run(q, l, actions), l) <= Measure(q, l)
    ensures SafeQueue(Run(q, l, actions), l)
  {
    if actions != [] {
      var most, last := actions[..|actions|-1], actions[|actions|-1];
      WorkIsBounded(q, l, most);
      PerformLowersMeasure(Run(q, l, most), l, last);
      PerformSafe(Run(q, l, most), l, last);
    }
  }
}
