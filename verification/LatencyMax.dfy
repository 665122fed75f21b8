// The lock-free maximum of PrometheusState::observe_latency_ns: any number of observers,
// each a compare-exchange retry loop, interleaved at single atomic operations. A weak
// compare-exchange may also fail for no reason.
module LatencyMax {
  import opened Types

  datatype Observer =
    | NotStarted(value: u64)
    | Retrying(value: u64, current: u64)  // about to compare-exchange against `current`
    | Finished(value: u64)

  datatype State = State(max: u64, observers: seq<Observer>)

  datatype Action = Load(i: nat) | CompareExchange(i: nat, spurious: bool)

  // The loop guard, evaluated on a freshly read register value.
  function Guard(value: u64, current: u64): Observer {
    if value > current then Retrying(value, current) else Finished(value)
  }

  // One atomic operation; an action that does not apply leaves the state alone.
  function Next(s: State, a: Action): State {
    if a.i >= |s.observers| then s
    else
      match (a, s.observers[a.i])
      case (Load(i), NotStarted(v)) => s.(observers := s.observers[i := Guard(v, s.max)])
      case (CompareExchange(i, spurious), Retrying(v, current)) =>
        if !spurious && s.max == current then State(v, s.observers[i := Finished(v)])
        else s.(observers := s.observers[i := Guard(v, s.max)])
      case _ => s
  }

  function Run(s: State, actions: seq<Action>): State {
    if actions == [] then s else Next(Run(s, actions[..|actions| - 1]), actions[|actions| - 1])
  }

  function Begin(initial: u64, values: seq<u64>): State {
    State(initial, seq(|values|, i requires 0 <= i < |values| => NotStarted(values[i])))
  }

  ghost predicate IsMaximum(m: u64, initial: u64, values: seq<u64>) {
    && (m == initial || m in values)
    && initial <= m
    && forall i :: 0 <= i < |values| ==> values[i] <= m
  }

  ghost predicate Inv(s: State, initial: u64, values: seq<u64>) {
    && |s.observers| == |values|
    && initial <= s.max && (s.max == initial || s.max in values)
    && forall i :: 0 <= i < |values| ==>
         && s.observers[i].value == values[i]
         && (s.observers[i].Finished? ==> values[i] <= s.max)
         && (s.observers[i].Retrying? ==> s.observers[i].current < values[i] && s.observers[i].current <= s.max)
  }

  // A step never lowers the register, and a compare-exchange that fails for a reason has
  // seen it rise: the observer retries against a strictly larger value or is done.
  lemma StepIsSafe(s: State, a: Action, initial: u64, values: seq<u64>)
    requires Inv(s, initial, values)
    ensures Inv(Next(s, a), initial, values)
    ensures s.max <= Next(s, a).max
    ensures a.CompareExchange? && !a.spurious && a.i < |values| && s.observers[a.i].Retrying? ==>
      var o := Next(s, a).observers[a.i];
      o.Finished? || (o.Retrying? && o.current > s.observers[a.i].current)
  {
  }

  // An observer that is not interfered with is done after a load and one genuine
  // compare-exchange, and has raised the register to its value if that was more.
  lemma FinishesAlone(s: State, i: nat)
    requires i < |s.observers| && s.observers[i].NotStarted?
    ensures var v := s.observers[i].value;
      var r := Next(Next(s, Load(i)), CompareExchange(i, false));
      && r.observers == s.observers[i := Finished(v)]
      && r.max == if v > s.max then v else s.max
  {
  }

  // A genuine compare-exchange against the register as it is ends the loop; any other leaves
  // the observer trying again exactly when its value is still more than what it read.
  lemma RetryMeans(s: State, i: nat, spurious: bool)
    requires i < |s.observers| && s.observers[i].Retrying?
    ensures var o, r := s.observers[i], Next(s, CompareExchange(i, spurious));
      if !spurious && o.current == s.max then r.max == o.value && r.observers[i] == Finished(o.value)
      else r.max == s.max && r.observers[i] == if o.value > s.max then Retrying(o.value, s.max) else Finished(o.value)
  {
  }

  lemma {:induction false} RunIsSafe(initial: u64, values: seq<u64>, actions: seq<Action>)
    ensures Inv(Run(Begin(initial, values), actions), initial, values)
  {
    hide Inv, Next;
    if actions == [] {
      BeginInv(initial, values);
    } else {
      RunIsSafe(initial, values, actions[..|actions| - 1]);
      StepIsSafe(Run(Begin(initial, values), actions[..|actions| - 1]), actions[|actions| - 1], initial, values);
    }
  }

  lemma BeginInv(initial: u64, values: seq<u64>)
    ensures Inv(Begin(initial, values), initial, values)
  {
  }

  // The register never decreases, whatever happens next.
  lemma {:induction false} NeverDecreases(initial: u64, values: seq<u64>, actions: seq<Action>, more: seq<Action>)
    ensures Run(Begin(initial, values), actions).max <= Run(Begin(initial, values), actions + more).max
  {
    hide Inv, Next;
    if more == [] {
      assert actions + more == actions;
    } else {
      var n := |more| - 1;
      var all := actions + more;
      NeverDecreases(initial, values, actions, more[..n]);
      assert all[..|all| - 1] == actions + more[..n];
      RunIsSafe(initial, values, actions + more[..n]);
      StepIsSafe(Run(Begin(initial, values), actions + more[..n]), all[|all| - 1], initial, values);
    }
  }

  // Once every observer is done, the register is the maximum of the initial value and all
  // observations.
  lemma FinalMaximum(initial: u64, values: seq<u64>, actions: seq<Action>)
    requires forall i :: 0 <= i < |values| ==>
      i < |Run(Begin(initial, values), actions).observers| && Run(Begin(initial, values), actions).observers[i].Finished?
    ensures IsMaximum(Run(Begin(initial, values), actions).max, initial, values)
  {
    hide Next;
    RunIsSafe(initial, values, actions);
  }
}
