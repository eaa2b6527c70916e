// Runs of the step machine by the states they pass through.
module Traces {
  import opened Protocol

  /** A step from one state to another. */
  ghost predicate Leads(s: Sys, l: Label, next: Sys) {
    Enabled(s, l) && Next(s, l) == next
  }

  ghost predicate StepAt(states: seq<Sys>, labels: seq<Label>, i: nat)
    requires i < |labels| && i + 1 < |states|
  {
    Leads(states[i], labels[i], states[i + 1])
  }

  /** Each state leads to the next one by its label. */
  ghost predicate IsChain(states: seq<Sys>, labels: seq<Label>) {
    && |states| == |labels| + 1
    && forall i: nat {:trigger StepAt(states, labels, i)} :: i < |labels| ==> StepAt(states, labels, i)
  }

  lemma {:induction false} OneState(s: Sys)
    ensures IsChain([s], [])
  {
  }

  lemma {:induction false} ExtendChain(states: seq<Sys>, labels: seq<Label>, l: Label, next: Sys)
    requires IsChain(states, labels) && Leads(states[|labels|], l, next)
    ensures IsChain(states + [next], labels + [l])
  {
    var states', labels' := states + [next], labels + [l];
    forall i: nat | i < |labels'| ensures StepAt(states', labels', i) {
      if i < |labels| {
        assert StepAt(states, labels, i);
      }
    }
  }

  lemma {:induction false} OneStep(s: Sys, l: Label, next: Sys)
    requires Leads(s, l, next)
    ensures IsChain([s, next], [l])
  {
    assert StepAt([s, next], [l], 0);
  }

  /** A chain goes on with another that starts where it ends. */
  lemma {:induction false} JoinChains(states: seq<Sys>, labels: seq<Label>, states': seq<Sys>, labels': seq<Label>)
    requires IsChain(states, labels) && IsChain(states', labels') && states[|labels|] == states'[0]
    ensures IsChain(states + states'[1..], labels + labels')
    ensures (states + states'[1..])[0] == states[0] && (states + states'[1..])[|labels + labels'|] == states'[|labels'|]
  {
    var all, steps := states + states'[1..], labels + labels';
    forall i: nat | i < |steps| ensures StepAt(all, steps, i) {
      if i < |labels| {
        assert StepAt(states, labels, i);
      } else {
        assert StepAt(states', labels', i - |labels|);
      }
    }
  }

  lemma {:induction false} ExtendRun(s: Sys, labels: seq<Label>, l: Label, next: Sys)
    requires IsRun(s, labels) && Leads(After(s, labels), l, next)
    ensures IsRun(s, labels + [l]) && After(s, labels + [l]) == next
  {
    var longer := labels + [l];
    assert longer[..|longer| - 1] == labels && longer[|longer| - 1] == l;
  }

  lemma {:induction false} Prefix(states: seq<Sys>, labels: seq<Label>)
    requires IsChain(states, labels) && labels != []
    ensures IsChain(states[..|labels|], labels[..|labels| - 1])
    ensures Leads(states[|labels| - 1], labels[|labels| - 1], states[|labels|])
  {
    var n := |labels| - 1;
    forall i: nat {:trigger StepAt(states[..n + 1], labels[..n], i)} | i < n ensures StepAt(states[..n + 1], labels[..n], i) {
      assert StepAt(states, labels, i);
    }
    assert StepAt(states, labels, n);
  }

  /** A run goes on along a chain from where it ended. */
  lemma {:induction false} FollowChain(s: Sys, labels: seq<Label>, states: seq<Sys>, more: seq<Label>)
    requires IsChain(states, more) && IsRun(s, labels) && After(s, labels) == states[0]
    ensures IsRun(s, labels + more) && After(s, labels + more) == states[|more|]
    decreases |more|
  {
    if more == [] {
      assert labels + more == labels;
    } else {
      var n := |more| - 1;
      Prefix(states, more);
      FollowChain(s, labels, states[..n + 1], more[..n]);
      ExtendRun(s, labels + more[..n], more[n], states[n + 1]);
      assert labels + more[..n] + [more[n]] == labels + more;
    }
  }

  /** A chain from an initial state is a run. */
  ghost predicate IsTrace(states: seq<Sys>, labels: seq<Label>) {
    IsChain(states, labels) && Init(states[0])
  }

  /** A trace ends where its labels lead. */
  lemma {:induction false} TraceIsRun(states: seq<Sys>, labels: seq<Label>)
    requires IsTrace(states, labels)
    ensures IsRun(states[0], labels) && After(states[0], labels) == states[|labels|]
  {
    FollowChain(states[0], [], states, labels);
    assert [] + labels == labels;
  }
}
