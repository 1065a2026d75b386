// The monthly budget gate, and how far concurrent runs can take spending past the limit.
module Budget {

  const DAY_MICROS := 86400000000

  datatype Decision = Allow | LimitReply(limit: int, spent: int, daysUntilReset: nat)

  function CeilDiv(a: int, b: int): int
    requires b > 0
  {
    -(-a / b)
  }

  function Decide(limit: int, spent: int, resetsAt: int, now: int): Decision
  {
    if spent < limit then Allow
    else LimitReply(limit, spent, var d := CeilDiv(resetsAt - now, DAY_MICROS); if d > 0 then d else 0)
  }

  /** A refusal quotes the fewest whole days after which the reset time has come. */
  lemma DaysUntilReset(limit: int, spent: int, resetsAt: int, now: int, d: nat)
    requires spent >= limit
    ensures Decide(limit, spent, resetsAt, now).limit == limit && Decide(limit, spent, resetsAt, now).spent == spent
    ensures Decide(limit, spent, resetsAt, now).daysUntilReset <= d <==> now + d * DAY_MICROS >= resetsAt
  {
  }

  // ---------------------------------------------------------------- concurrent runs

  /** The budget row (its window is never moved), how many runs an assistant can have in flight,
      and the most one job can book. */
  datatype Params = Params(limit: nat, startsAt: int, resetsAt: int, slots: nat, most: nat)

  datatype Slot = Idle | Undecided | Allowed(charged: nat) | Refused

  datatype Row = Row(at: int, cost: nat)

  datatype State = State(ledger: seq<Row>, slots: seq<Slot>, now: int)

  datatype Step = Start(i: nat) | Gate(i: nat) | Charge(i: nat, cost: nat) | Finish(i: nat) | Elapse(micros: nat)

  function Spent(p: Params, ledger: seq<Row>): nat
  {
    if ledger == [] then 0
    else
      var row := ledger[|ledger| - 1];
      Spent(p, ledger[..|ledger| - 1]) + if p.startsAt <= row.at < p.resetsAt then row.cost else 0
  }

  predicate Enabled(p: Params, s: State, step: Step)
  {
    match step
    case Start(i) => i < |s.slots| && s.slots[i].Idle?
    case Gate(i) => i < |s.slots| && s.slots[i].Undecided?
    case Charge(i, cost) => i < |s.slots| && s.slots[i].Allowed? && s.slots[i].charged + cost <= p.most
    case Finish(i) => i < |s.slots| && !s.slots[i].Idle?
    case Elapse(_) => true
  }

  function Apply(p: Params, s: State, step: Step): State
    requires Enabled(p, s, step)
  {
    match step
    case Start(i) => s.(slots := s.slots[i := Undecided])
    case Gate(i) =>
      var decision := Decide(p.limit, Spent(p, s.ledger), p.resetsAt, s.now);
      s.(slots := s.slots[i := if decision.Allow? then Allowed(0) else Refused])
    case Charge(i, cost) =>
      s.(slots := s.slots[i := Allowed(s.slots[i].charged + cost)], ledger := s.ledger + [Row(s.now, cost)])
    case Finish(i) => s.(slots := s.slots[i := Idle])
    case Elapse(micros) => s.(now := s.now + micros)
  }

  function Initial(p: Params, now: int): State
  {
    State([], seq(p.slots, i => Idle), now)
  }

  ghost predicate Runs(p: Params, s: State, steps: seq<Step>, s': State)
    decreases |steps|
  {
    if steps == [] then s == s' else Enabled(p, s, steps[0]) && Runs(p, Apply(p, s, steps[0]), steps[1..], s')
  }

  // ---------------------------------------------------------------- the bound

  /** What one slot may still book. */
  function Headroom(p: Params, slot: Slot): nat
  {
    if slot.Allowed? && slot.charged <= p.most then p.most - slot.charged else 0
  }

  function Reserve(p: Params, slots: seq<Slot>): nat
  {
    if slots == [] then 0 else Headroom(p, slots[0]) + Reserve(p, slots[1..])
  }

  lemma {:induction false} ReserveUpdate(p: Params, slots: seq<Slot>, i: nat, slot: Slot)
    requires i < |slots|
    ensures Reserve(p, slots[i := slot]) == Reserve(p, slots) - Headroom(p, slots[i]) + Headroom(p, slot)
  {
    if i == 0 {
      assert slots[0 := slot][1..] == slots[1..];
    } else {
      ReserveUpdate(p, slots[1..], i - 1, slot);
      assert slots[i := slot][1..] == slots[1..][i - 1 := slot];
    }
  }

  lemma {:induction false} ReserveAtMost(p: Params, slots: seq<Slot>)
    ensures Reserve(p, slots) <= |slots| * p.most
  {
    if slots != [] {
      ReserveAtMost(p, slots[1..]);
      assert |slots| * p.most == p.most + |slots[1..]| * p.most;
    }
  }

  /** A slot that may book nothing leaves room for the others only. */
  lemma ReserveOfOthers(p: Params, slots: seq<Slot>, i: nat)
    requires i < |slots| && Headroom(p, slots[i]) == 0
    ensures Reserve(p, slots) + p.most <= |slots| * p.most
  {
    ReserveAtMost(p, slots[i := Allowed(0)]);
    ReserveUpdate(p, slots, i, Allowed(0));
  }

  lemma SpentSnoc(p: Params, ledger: seq<Row>, row: Row)
    ensures Spent(p, ledger + [row]) == Spent(p, ledger) + if p.startsAt <= row.at < p.resetsAt then row.cost else 0
  {
  }

  ghost predicate Inv(p: Params, s: State)
  {
    |s.slots| == p.slots && Spent(p, s.ledger) + Reserve(p, s.slots) < p.limit + p.slots * p.most
  }

  lemma StepKeepsInv(p: Params, s: State, step: Step)
    requires Inv(p, s) && Enabled(p, s, step)
    ensures Inv(p, Apply(p, s, step))
    ensures Spent(p, Apply(p, s, step).ledger) >= Spent(p, s.ledger)
  {
    var s' := Apply(p, s, step);
    if !step.Elapse? {
      ReserveUpdate(p, s.slots, step.i, s'.slots[step.i]);
    }
    if step.Charge? {
      SpentSnoc(p, s.ledger, Row(s.now, step.cost));
    }
    if step.Gate? && s'.slots[step.i].Allowed? {
      ReserveOfOthers(p, s.slots, step.i);
    }
  }

  lemma {:induction false} RunsKeepInv(p: Params, s: State, steps: seq<Step>, s': State)
    requires Inv(p, s) && Runs(p, s, steps, s')
    ensures Inv(p, s') && Spent(p, s'.ledger) >= Spent(p, s.ledger)
    decreases |steps|
  {
    if steps != [] {
      StepKeepsInv(p, s, steps[0]);
      RunsKeepInv(p, Apply(p, s, steps[0]), steps[1..], s');
    }
  }

  lemma {:induction false} NothingReserved(p: Params, slots: seq<Slot>)
    requires forall i :: 0 <= i < |slots| ==> !slots[i].Allowed?
    ensures Reserve(p, slots) == 0
  {
    if slots != [] {
      NothingReserved(p, slots[1..]);
    }
  }

  lemma InitialInv(p: Params, now: int)
    requires p.limit > 0
    ensures Inv(p, Initial(p, now))
  {
    NothingReserved(p, Initial(p, now).slots);
    assert p.slots * p.most >= 0;
  }

  /** Spending in the window, together with all that runs in flight may still book, stays below
      the limit plus one full job per slot; with one slot, below the limit plus one job. */
  lemma OverspendBound(p: Params, now: int, steps: seq<Step>, s: State)
    requires p.limit > 0 && Runs(p, Initial(p, now), steps, s)
    ensures Spent(p, s.ledger) + Reserve(p, s.slots) < p.limit + p.slots * p.most
    ensures p.slots == 1 ==> Spent(p, s.ledger) < p.limit + p.most
  {
    InitialInv(p, now);
    RunsKeepInv(p, Initial(p, now), steps, s);
  }

  /** Spending in the window never goes down and nothing moves the window: once the limit is
      reached every later run is refused, also long after the reset time. */
  lemma NeverResumes(p: Params, s: State, steps: seq<Step>, s': State)
    requires Inv(p, s) && Spent(p, s.ledger) >= p.limit && Runs(p, s, steps, s')
    ensures Decide(p.limit, Spent(p, s'.ledger), p.resetsAt, s'.now).LimitReply?
  {
    RunsKeepInv(p, s, steps, s');
  }

  lemma LateRowsUncounted(p: Params, s: State, step: Step)
    requires Enabled(p, s, step) && s.now >= p.resetsAt
    ensures Apply(p, s, step).now >= p.resetsAt && Spent(p, Apply(p, s, step).ledger) == Spent(p, s.ledger)
  {
    if step.Charge? { SpentSnoc(p, s.ledger, Row(s.now, step.cost)); }
  }

  /** The opposite case: a window that ends with the limit not reached stays that way, whatever is
      spent afterwards, and no later run is refused. */
  lemma {:induction false} NeverEnforcedAfterReset(p: Params, s: State, steps: seq<Step>, s': State)
    requires s.now >= p.resetsAt && Spent(p, s.ledger) < p.limit && Runs(p, s, steps, s')
    ensures Decide(p.limit, Spent(p, s'.ledger), p.resetsAt, s'.now).Allow?
    decreases |steps|
  {
    if steps != [] {
      LateRowsUncounted(p, s, steps[0]);
      NeverEnforcedAfterReset(p, Apply(p, s, steps[0]), steps[1..], s');
    }
  }

  // ---------------------------------------------------------------- the bound is attained

  lemma {:induction false} RunsAppend(p: Params, a: State, xs: seq<Step>, b: State, ys: seq<Step>, c: State)
    requires Runs(p, a, xs, b) && Runs(p, b, ys, c)
    ensures Runs(p, a, xs + ys, c)
    decreases |xs|
  {
    if xs == [] {
      assert xs + ys == ys;
    } else {
      RunsAppend(p, Apply(p, a, xs[0]), xs[1..], b, ys, c);
      assert (xs + ys)[1..] == xs[1..] + ys;
    }
  }

  lemma RunsSnoc(p: Params, a: State, xs: seq<Step>, b: State, step: Step)
    requires Runs(p, a, xs, b) && Enabled(p, b, step)
    ensures Runs(p, a, xs + [step], Apply(p, b, step))
  {
    assert Runs(p, Apply(p, b, step), [step][1..], Apply(p, b, step));
    RunsAppend(p, a, xs, b, [step], Apply(p, b, step));
  }

  ghost predicate AllIdle(p: Params, s: State)
  {
    |s.slots| == p.slots && forall i :: 0 <= i < |s.slots| ==> s.slots[i].Idle?
  }

  /** `n` runs one after the other, each booking one quantum, while the limit is not reached. */
  lemma {:induction false} SpendOneByOne(p: Params, s: State, n: nat) returns (steps: seq<Step>, s': State)
    requires p.slots > 0 && p.most > 0 && AllIdle(p, s) && p.startsAt <= s.now < p.resetsAt
    requires Spent(p, s.ledger) + n <= p.limit
    ensures Runs(p, s, steps, s') && AllIdle(p, s') && s'.now == s.now
    ensures Spent(p, s'.ledger) == Spent(p, s.ledger) + n
  {
    steps, s' := [], s;
    if n > 0 {
      steps, s' := SpendOneByOne(p, s, n - 1);
      ghost var s1 := Apply(p, s', Start(0));
      ghost var s2 := Apply(p, s1, Gate(0));
      ghost var s3 := Apply(p, s2, Charge(0, 1));
      SpentSnoc(p, s2.ledger, Row(s2.now, 1));
      RunsSnoc(p, s, steps, s', Start(0));
      RunsSnoc(p, s, steps + [Start(0)], s1, Gate(0));
      RunsSnoc(p, s, steps + [Start(0)] + [Gate(0)], s2, Charge(0, 1));
      RunsSnoc(p, s, steps + [Start(0)] + [Gate(0)] + [Charge(0, 1)], s3, Finish(0));
      steps, s' := steps + [Start(0)] + [Gate(0)] + [Charge(0, 1)] + [Finish(0)], Apply(p, s3, Finish(0));
    }
  }

  /** The first `n` slots pass the gate together. */
  lemma {:induction false} AdmitTogether(p: Params, s: State, n: nat) returns (steps: seq<Step>, s': State)
    requires n <= p.slots && AllIdle(p, s) && Spent(p, s.ledger) < p.limit
    ensures Runs(p, s, steps, s') && s'.now == s.now && s'.ledger == s.ledger && |s'.slots| == p.slots
    ensures forall i :: 0 <= i < p.slots ==> s'.slots[i] == if i < n then Allowed(0) else Idle
  {
    steps, s' := [], s;
    if n > 0 {
      steps, s' := AdmitTogether(p, s, n - 1);
      ghost var s1 := Apply(p, s', Start(n - 1));
      RunsSnoc(p, s, steps, s', Start(n - 1));
      RunsSnoc(p, s, steps + [Start(n - 1)], s1, Gate(n - 1));
      steps, s' := steps + [Start(n - 1)] + [Gate(n - 1)], Apply(p, s1, Gate(n - 1));
    }
  }

  /** And then each books all it may. */
  lemma {:induction false} ChargeTogether(p: Params, s: State, n: nat) returns (steps: seq<Step>, s': State)
    requires n <= |s.slots| && p.startsAt <= s.now < p.resetsAt
    requires forall i :: 0 <= i < |s.slots| ==> s.slots[i] == Allowed(0)
    ensures Runs(p, s, steps, s') && s'.now == s.now && |s'.slots| == |s.slots|
    ensures forall i :: n <= i < |s.slots| ==> s'.slots[i] == Allowed(0)
    ensures Spent(p, s'.ledger) == Spent(p, s.ledger) + n * p.most
  {
    steps, s' := [], s;
    if n > 0 {
      steps, s' := ChargeTogether(p, s, n - 1);
      RunsSnoc(p, s, steps, s', Charge(n - 1, p.most));
      SpentSnoc(p, s'.ledger, Row(s'.now, p.most));
      assert n * p.most == (n - 1) * p.most + p.most;
      steps, s' := steps + [Charge(n - 1, p.most)], Apply(p, s', Charge(n - 1, p.most));
    }
  }

  /** The bound cannot be lowered: for every budget and every number of slots some run spends
      exactly one quantum less than it. */
  lemma OverspendBoundAttained(p: Params, now: int) returns (steps: seq<Step>, s: State)
    requires p.limit > 0 && p.slots > 0 && p.most > 0 && p.startsAt <= now < p.resetsAt
    ensures Runs(p, Initial(p, now), steps, s)
    ensures Spent(p, s.ledger) == p.limit + p.slots * p.most - 1
  {
    var init := Initial(p, now);
    var xs, a := SpendOneByOne(p, init, p.limit - 1);
    var ys, b := AdmitTogether(p, a, p.slots);
    var zs, c := ChargeTogether(p, b, p.slots);
    RunsAppend(p, init, xs, a, ys, b);
    RunsAppend(p, init, xs + ys, b, zs, c);
    steps, s := xs + ys + zs, c;
  }
}
