/** The durable-intent protocol of the Coinbase worker. A database commit is one atomic step;
    the process may crash between any two steps; what the exchange answers, and whether it
    answers, is the environment's choice. */
module CoinbaseIntents {
  import opened Common
  import opened OrderedSet

  type EventId = string

  type Day = int

  /** `Reconciled` is what an operator leaves behind; the worker never writes it. */
  datatype IntentState = Preparing | Unknown | Submitted | Rejected | Reconciled

  datatype Order = Order(event: EventId, day: Day, quote: real)

  /** How far the worker has got with one signal; lost in a crash. */
  datatype Phase =
    | Idle
    | Prepared(order: Order)
    | Calling(order: Order)

  /** Durable tables, the volatile phase, and the history of what reached the exchange. */
  datatype State = State(
    intents: map<EventId, IntentState>, daily: map<Day, real>, phase: Phase,
    calls: seq<Order>, acknowledged: seq<Order>, reconciliations: nat)

  const INITIAL := State(map[], map[], Idle, [], [], 0)

  predicate Active(state: IntentState) {
    state.Preparing? || state.Unknown? || state.Submitted?
  }

  function ActiveIn(intents: map<EventId, IntentState>): set<EventId> {
    set e | e in intents && Active(intents[e])
  }

  function ReconciledIn(intents: map<EventId, IntentState>): set<EventId> {
    set e | e in intents && intents[e].Reconciled?
  }

  function SubmittedOn(daily: map<Day, real>, day: Day): real {
    if day in daily then daily[day] else 0.0
  }

  datatype Step =
    | Begin(order: Order, cap: real, readChecksPass: bool)  // cap and open-intent checks, preflight, insert, commit
    | PreSubmitRejection                                    // a check failed before create_order: commit `rejected`
    | CreateOrder                                           // the request leaves for the exchange
    | AmbiguousOutcome                                      // any exception from the call on: commit `unknown`
    | Acknowledgement                                       // order id received: commit `submitted` and the day's total
    | Crash
    | OperatorReconciles(event: EventId)

  /** Whether the intent is inserted: within the day's cap, nothing unresolved, and a new event. */
  predicate MayBegin(s: State, order: Order, cap: real, readChecksPass: bool) {
    && s.phase.Idle?
    && SubmittedOn(s.daily, order.day) + order.quote <= cap
    && ActiveIn(s.intents) == {}
    && readChecksPass
    && order.event !in s.intents
  }

  /** A step that is not enabled does nothing. */
  function After(s: State, step: Step): State {
    match step
    case Begin(order, cap, readChecksPass) =>
      if MayBegin(s, order, cap, readChecksPass)
      then s.(intents := s.intents[order.event := Preparing], phase := Prepared(order))
      else s
    case PreSubmitRejection =>
      if s.phase.Prepared? then s.(intents := s.intents[s.phase.order.event := Rejected], phase := Idle) else s
    case CreateOrder =>
      if s.phase.Prepared? then s.(calls := s.calls + [s.phase.order], phase := Calling(s.phase.order)) else s
    case AmbiguousOutcome =>
      if s.phase.Calling? then s.(intents := s.intents[s.phase.order.event := Unknown], phase := Idle) else s
    case Acknowledgement =>
      if s.phase.Calling? then
        var order := s.phase.order;
        s.(intents := s.intents[order.event := Submitted],
           daily := s.daily[order.day := SubmittedOn(s.daily, order.day) + order.quote],
           acknowledged := s.acknowledged + [order], phase := Idle)
      else s
    case Crash => s.(phase := Idle)
    case OperatorReconciles(event) =>
      if event in s.intents && Active(s.intents[event])
      then s.(intents := s.intents[event := Reconciled], reconciliations := s.reconciliations + 1)
      else s
  }

  function RunFrom(s: State, steps: seq<Step>): State {
    if steps == [] then s else After(RunFrom(s, steps[..|steps| - 1]), steps[|steps| - 1])
  }

  function Run(steps: seq<Step>): State {
    RunFrom(INITIAL, steps)
  }

  lemma {:induction false} RunAppend(s: State, a: seq<Step>, b: seq<Step>)
    ensures RunFrom(s, a + b) == RunFrom(RunFrom(s, a), b)
  {
    if b == [] {
      assert a + b == a;
    } else {
      assert (a + b)[..|a + b| - 1] == a + b[..|b| - 1];
      RunAppend(s, a, b[..|b| - 1]);
    }
  }

  // ---------------------------------------------------------------- the worker

  datatype Answer = FailsBeforeCall | FailsFromCallOn | Confirms

  datatype CrashPoint = Never | AfterInsert | AfterCall

  /** A feed row: its fingerprint, its age, the order its signal would place if it is one, and
      how the environment behaves while that signal is handled. */
  datatype Row = Row(
    fingerprint: string, lastSeen: int, signal: Option<Order>, readChecksPass: bool, answer: Answer, crash: CrashPoint)

  /** What becomes of the tables when one signal is handled, and whether an exception or a crash
      leaves the signal loop. */
  function Handled(s: State, order: Order, cap: real, readChecksPass: bool, answer: Answer, crash: CrashPoint)
    : (State, bool)
  {
    if SubmittedOn(s.daily, order.day) + order.quote > cap || ActiveIn(s.intents) != {} then (s, false)
    else if !readChecksPass || order.event in s.intents then (s, true)
    else if crash.AfterInsert? then (s.(intents := s.intents[order.event := Preparing]), true)
    else if answer.FailsBeforeCall? then (s.(intents := s.intents[order.event := Rejected]), false)
    else
      var called := s.(calls := s.calls + [order]);
      if crash.AfterCall? then (called.(intents := s.intents[order.event := Preparing]), true)
      else if answer.FailsFromCallOn? then (called.(intents := s.intents[order.event := Unknown]), false)
      else (called.(intents := s.intents[order.event := Submitted],
                    daily := s.daily[order.day := SubmittedOn(s.daily, order.day) + order.quote],
                    acknowledged := s.acknowledged + [order]), false)
  }

  function HandledRow(s: State, row: Row, cap: real): (State, bool)
    requires row.signal.Some?
  {
    Handled(s, row.signal.value, cap, row.readChecksPass, row.answer, row.crash)
  }

  /** Row `i` is new, not older than the baseline, and carries a signal. */
  predicate Actionable(rows: seq<Row>, inspected: set<string>, baseline: int, i: nat)
    requires i < |rows|
  {
    && rows[i].fingerprint !in inspected && (forall j :: 0 <= j < i ==> rows[j].fingerprint != rows[i].fingerprint)
    && rows[i].lastSeen >= baseline && rows[i].signal.Some?
  }

  /** The rows whose signals a cycle handles, in order. */
  function ActionableRows(rows: seq<Row>, inspected: set<string>, baseline: int): (r: seq<Row>)
    ensures forall i :: 0 <= i < |r| ==> r[i].signal.Some?
  {
    if rows == [] then []
    else
      var n := |rows| - 1;
      var front := ActionableRows(rows[..n], inspected, baseline);
      if Actionable(rows, inspected, baseline, n) then front + [rows[n]] else front
  }

  /** Handling rows in order, up to the first abort. */
  function HandleAll(s: State, rows: seq<Row>, cap: real): (State, bool)
    requires forall i :: 0 <= i < |rows| ==> rows[i].signal.Some?
  {
    if rows == [] then (s, false)
    else
      var front := HandleAll(s, rows[..|rows| - 1], cap);
      if front.1 then front else HandledRow(front.0, rows[|rows| - 1], cap)
  }

  function Fingerprints(rows: seq<Row>): set<string> {
    set i | 0 <= i < |rows| :: rows[i].fingerprint
  }

  class Worker {
    var intents: map<EventId, IntentState>
    var daily: map<Day, real>
    var inspected: set<string>
    ghost var calls: seq<Order>
    ghost var acknowledged: seq<Order>
    ghost var reconciliations: nat

    /** Between signals the worker holds no volatile state. */
    ghost function Value(): State
      reads this
    {
      State(intents, daily, Idle, calls, acknowledged, reconciliations)
    }

    constructor ()
      ensures Value() == INITIAL && inspected == {}
    {
      intents, daily, inspected := map[], map[], {};
      calls, acknowledged, reconciliations := [], [], 0;
    }

    /** One signal, with the environment's answers: the outcome of each guard, answer and crash
        point, which is a run of protocol steps. `aborted` is an exception that leaves the signal
        loop, or a crash. */
    method HandleSignal(order: Order, cap: real, readChecksPass: bool, answer: Answer, crash: CrashPoint)
      returns (aborted: bool, ghost steps: seq<Step>)
      modifies `intents, `daily, `calls, `acknowledged
      ensures (Value(), aborted) == Handled(old(Value()), order, cap, readChecksPass, answer, crash)
      ensures Value() == RunFrom(old(Value()), steps)
      ensures |calls| <= |old(calls)| + 1
    {
      aborted := false;
      steps := SignalSteps(Value(), order, cap, readChecksPass, answer, crash);
      if SubmittedOn(daily, order.day) + order.quote > cap {
        return;
      }
      if ActiveIn(intents) != {} {
        return;
      }
      if !readChecksPass || order.event in intents {
        return true, steps;  // the preflight raises, or the insert fails on its primary key
      }
      ghost var before := intents;
      intents := intents[order.event := Preparing];
      SetTwice(before, order.event, Preparing);
      if crash.AfterInsert? {
        return true, steps;
      }
      if answer.FailsBeforeCall? {
        intents := intents[order.event := Rejected];
        return false, steps;
      }
      calls := calls + [order];
      if crash.AfterCall? {
        return true, steps;
      }
      if answer.FailsFromCallOn? {
        intents := intents[order.event := Unknown];
        return false, steps;
      }
      intents := intents[order.event := Submitted];
      daily := daily[order.day := SubmittedOn(daily, order.day) + order.quote];
      acknowledged := acknowledged + [order];
      return false, steps;
    }

    /** One row. Its fingerprint is recorded before its signal is handled. */
    method ProcessRow(row: Row, baseline: int, armed: bool, cap: real) returns (aborted: bool)
      modifies `intents, `daily, `calls, `acknowledged, `inspected
      ensures (Value(), inspected, aborted) == RowStep(old(Value()), old(inspected), row, baseline, armed, cap)
    {
      aborted := false;
      if row.fingerprint in inspected {
        assert inspected + {row.fingerprint} == inspected;
        return;
      }
      inspected := inspected + {row.fingerprint};
      if row.lastSeen < baseline {
        return;
      }
      if row.signal.Some? {
        if armed {
          ghost var steps;
          aborted, steps := HandleSignal(row.signal.value, cap, row.readChecksPass, row.answer, row.crash);
        }
      }
    }

    /** One polling cycle: exactly the actionable rows are handled, in order and up to the first
        abort, when armed, and none otherwise. At most one call is made per newly recorded
        fingerprint, and a cycle over recorded rows does nothing. */
    method ProcessRows(rows: seq<Row>, baseline: int, armed: bool, cap: real)
      returns (ghost steps: seq<Step>, processed: nat)
      modifies `intents, `daily, `calls, `acknowledged, `inspected
      ensures var handled := HandleAll(old(Value()), ActionableRows(rows, old(inspected), baseline), cap);
              && Value() == (if armed then handled.0 else old(Value()))
              && (processed < |rows| ==> armed && handled.1)
      ensures processed <= |rows| && inspected == old(inspected) + Fingerprints(rows[..processed])
      ensures Value() == RunFrom(old(Value()), steps)
      ensures |calls| - |old(calls)| <= |inspected| - |old(inspected)|
      ensures (forall i :: 0 <= i < |rows| ==> rows[i].fingerprint in old(inspected)) ==>
                Value() == old(Value()) && inspected == old(inspected)
    {
      ghost var before, seen := Value(), inspected;
      for i := 0 to |rows|
        invariant Cycle(before, seen, rows, baseline, armed, cap, i) == (Value(), inspected, false)
      {
        var aborted := ProcessRow(rows[i], baseline, armed, cap);
        if aborted {
          steps := CycleEnds(before, seen, rows, baseline, armed, cap, i + 1);
          return steps, i + 1;
        }
      }
      steps := CycleEnds(before, seen, rows, baseline, armed, cap, |rows|);
      return steps, |rows|;
    }
  }

  /** One row of a cycle: the tables, the recorded fingerprints, and whether the cycle aborts. */
  function RowStep(s: State, inspected: set<string>, row: Row, baseline: int, armed: bool, cap: real)
    : (State, set<string>, bool)
  {
    if row.fingerprint !in inspected && row.lastSeen >= baseline && row.signal.Some? && armed then
      var handled := HandledRow(s, row, cap);
      (handled.0, inspected + {row.fingerprint}, handled.1)
    else (s, inspected + {row.fingerprint}, false)
  }

  /** A cycle after its first `k` rows. */
  ghost function Cycle(before: State, seen: set<string>, rows: seq<Row>, baseline: int, armed: bool, cap: real, k: nat)
    : (State, set<string>, bool)
    requires k <= |rows|
  {
    if k == 0 then (before, seen, false)
    else
      var front := Cycle(before, seen, rows, baseline, armed, cap, k - 1);
      if front.2 then front else RowStep(front.0, front.1, rows[k - 1], baseline, armed, cap)
  }

  /** As long as it is not aborted, a cycle has handled the actionable rows so far. */
  lemma {:induction false} CycleMeaning(before: State, seen: set<string>, rows: seq<Row>, baseline: int, armed: bool,
                                        cap: real, k: nat)
    requires k <= |rows| && (k > 0 ==> !Cycle(before, seen, rows, baseline, armed, cap, k - 1).2)
    ensures var (now, inspected, aborted) := Cycle(before, seen, rows, baseline, armed, cap, k);
            && inspected == seen + Fingerprints(rows[..k])
            && (now, aborted) == if armed then HandledFirst(before, rows, seen, baseline, cap, k) else (before, false)
  {
    if k == 0 {
      assert rows[..0] == [];
    } else {
      CycleMeaning(before, seen, rows, baseline, armed, cap, k - 1);
      NextRow(rows, seen, baseline, before, cap, k - 1);
    }
  }

  lemma OneCallPerRow(s: State, row: Row, cap: real)
    requires row.signal.Some?
    ensures |HandledRow(s, row, cap).0.calls| <= |s.calls| + 1
  {
  }

  lemma RecordingOneMore(seen: set<string>, before: set<string>, fingerprint: string)
    ensures |seen + (before + {fingerprint})| >= |seen + before|
    ensures fingerprint !in seen + before ==> |seen + (before + {fingerprint})| == |seen + before| + 1
  {
    assert seen + (before + {fingerprint}) == seen + before + {fingerprint};
    SubsetSize(seen + before, seen + before + {fingerprint});
  }

  lemma {:induction false} CallsAreRationed(s: State, rows: seq<Row>, seen: set<string>, baseline: int, cap: real, k: nat)
    requires k <= |rows|
    ensures |HandledFirst(s, rows, seen, baseline, cap, k).0.calls| - |s.calls| <= |seen + Fingerprints(rows[..k])| - |seen|
  {
    if k == 0 {
      assert rows[..0] == [] && seen + Fingerprints([]) == seen;
    } else {
      CallsAreRationed(s, rows, seen, baseline, cap, k - 1);
      NextRow(rows, seen, baseline, s, cap, k - 1);
      RecordingOneMore(seen, Fingerprints(rows[..k - 1]), rows[k - 1].fingerprint);
      if Actionable(rows, seen, baseline, k - 1) {
        OneCallPerRow(HandledFirst(s, rows, seen, baseline, cap, k - 1).0, rows[k - 1], cap);
      }
    }
  }

  /** The first `k` rows handled are a run of protocol steps. */
  lemma {:induction false} HandlingIsARun(s: State, rows: seq<Row>, seen: set<string>, baseline: int, cap: real, k: nat)
    returns (steps: seq<Step>)
    requires k <= |rows| && s.phase.Idle?
    ensures RunFrom(s, steps) == HandledFirst(s, rows, seen, baseline, cap, k).0 && RunFrom(s, steps).phase.Idle?
  {
    if k == 0 {
      assert rows[..0] == [];
      return [];
    }
    steps := HandlingIsARun(s, rows, seen, baseline, cap, k - 1);
    NextRow(rows, seen, baseline, s, cap, k - 1);
    var now := HandledFirst(s, rows, seen, baseline, cap, k - 1);
    if Actionable(rows, seen, baseline, k - 1) && !now.1 {
      var row := rows[k - 1];
      var more := SignalSteps(now.0, row.signal.value, cap, row.readChecksPass, row.answer, row.crash);
      RunAppend(s, steps, more);
      steps := steps + more;
    }
  }

  lemma CycleEnds(before: State, seen: set<string>, rows: seq<Row>, baseline: int, armed: bool, cap: real, k: nat)
    returns (steps: seq<Step>)
    requires k <= |rows| && before.phase.Idle? && (k > 0 ==> !Cycle(before, seen, rows, baseline, armed, cap, k - 1).2)
    requires Cycle(before, seen, rows, baseline, armed, cap, k).2 || k == |rows|
    ensures var (now, inspected, aborted) := Cycle(before, seen, rows, baseline, armed, cap, k);
            var handled := HandleAll(before, ActionableRows(rows, seen, baseline), cap);
            && now == (if armed then handled.0 else before) && (aborted ==> armed && handled.1)
            && inspected == seen + Fingerprints(rows[..k])
            && now == RunFrom(before, steps)
            && |now.calls| - |before.calls| <= |inspected| - |seen|
            && ((forall i :: 0 <= i < |rows| ==> rows[i].fingerprint in seen) ==> now == before && inspected == seen)
  {
    CycleMeaning(before, seen, rows, baseline, armed, cap, k);
    assert rows[..|rows|] == rows;
    CallsAreRationed(before, rows, seen, baseline, cap, k);
    SubsetSize(seen, seen + Fingerprints(rows[..k]));
    if Cycle(before, seen, rows, baseline, armed, cap, k).2 { AbortedStays(before, rows, seen, baseline, cap, k, |rows|); }
    RecordedRowsAreIdle(rows, seen, baseline);
    steps := [];
    if armed { steps := HandlingIsARun(before, rows, seen, baseline, cap, k); }
  }

  /** Handling a signal is a run of protocol steps with at most one call. */
  lemma SignalSteps(s: State, order: Order, cap: real, readChecksPass: bool, answer: Answer, crash: CrashPoint)
    returns (steps: seq<Step>)
    requires s.phase.Idle?
    ensures RunFrom(s, steps) == Handled(s, order, cap, readChecksPass, answer, crash).0
    ensures RunFrom(s, steps).phase.Idle?
    ensures |RunFrom(s, steps).calls| <= |s.calls| + 1
  {
    var begin := Begin(order, cap, readChecksPass);
    if !MayBegin(s, order, cap, readChecksPass) {
      return [];
    }
    SetTwice(s.intents, order.event, Preparing);
    if crash.AfterInsert? {
      TwoSteps(s, begin, Crash);
      return [begin, Crash];
    }
    if answer.FailsBeforeCall? {
      TwoSteps(s, begin, PreSubmitRejection);
      return [begin, PreSubmitRejection];
    }
    var end := if crash.AfterCall? then Crash else if answer.FailsFromCallOn? then AmbiguousOutcome else Acknowledgement;
    ThreeSteps(s, begin, CreateOrder, end);
    return [begin, CreateOrder, end];
  }

  /** What handling a signal does, by guard, answer and crash point. A signal over the cap or
      beside an unresolved intent does nothing; a failed read check or a known event aborts;
      otherwise exactly one intent is written, whose state says how far the order got. */
  lemma SignalOutcomes(s: State, order: Order, cap: real, readChecksPass: bool, answer: Answer, crash: CrashPoint)
    ensures var (t, aborted) := Handled(s, order, cap, readChecksPass, answer, crash);
            var blocked := SubmittedOn(s.daily, order.day) + order.quote > cap
                           || exists e :: e in s.intents && Active(s.intents[e]);
            var admitted := !blocked && readChecksPass && order.event !in s.intents;
            var called := admitted && !crash.AfterInsert? && !answer.FailsBeforeCall?;
            var confirmed := called && answer.Confirms? && !crash.AfterCall?;
            && (aborted <==> !blocked && (!admitted || crash.AfterInsert? || (called && crash.AfterCall?)))
            && (!admitted ==> t == s)
            && (admitted ==> t.intents == s.intents[order.event := t.intents[order.event]])
            && (admitted ==>
                  match t.intents[order.event]
                  case Preparing => aborted
                  case Rejected => !aborted && !called
                  case Unknown => !aborted && called && !confirmed
                  case Submitted => confirmed
                  case Reconciled => false)
            && t.calls == s.calls + (if called then [order] else [])
            && t.acknowledged == s.acknowledged + (if confirmed then [order] else [])
            && (forall day: Day :: SubmittedOn(t.daily, day)
                                   == SubmittedOn(s.daily, day) + if confirmed && day == order.day then order.quote else 0.0)
            && t.phase == s.phase && t.reconciliations == s.reconciliations
  {
    var some := exists e :: e in s.intents && Active(s.intents[e]);
    assert some <==> ActiveIn(s.intents) != {} by {
      if e :| e in s.intents && Active(s.intents[e]) { assert e in ActiveIn(s.intents); }
    }
    assert s.calls + [] == s.calls && s.acknowledged + [] == s.acknowledged;
  }

  lemma {:induction false} RecordedRowsAreIdle(rows: seq<Row>, inspected: set<string>, baseline: int)
    ensures (forall i :: 0 <= i < |rows| ==> rows[i].fingerprint in inspected) ==>
              ActionableRows(rows, inspected, baseline) == [] && inspected + Fingerprints(rows) == inspected
              && forall n :: 0 <= n <= |rows| ==> inspected + Fingerprints(rows[..n]) == inspected
  {
    if rows != [] {
      RecordedRowsAreIdle(rows[..|rows| - 1], inspected, baseline);
    }
  }

  lemma SetTwice<K, V(!new)>(m: map<K, V>, k: K, v: V)
    ensures forall w: V {:trigger m[k := v][k := w]} :: m[k := v][k := w] == m[k := w]
  {
  }

  lemma HandleOneMore(s: State, rows: seq<Row>, row: Row, cap: real)
    requires row.signal.Some? && forall i :: 0 <= i < |rows| ==> rows[i].signal.Some?
    ensures HandleAll(s, rows + [row], cap)
         == if HandleAll(s, rows, cap).1 then HandleAll(s, rows, cap) else HandledRow(HandleAll(s, rows, cap).0, row, cap)
  {
    assert (rows + [row])[..|rows|] == rows;
  }

  lemma FirstRows<T>(s: seq<T>, i: nat)
    requires i < |s|
    ensures s[..i + 1] == s[..i] + [s[i]] && s[..i + 1][..i] == s[..i]
  {
  }

  lemma NextIsActionable(rows: seq<Row>, inspected: set<string>, baseline: int, i: nat)
    requires i < |rows|
    ensures Fingerprints(rows[..i + 1]) == Fingerprints(rows[..i]) + {rows[i].fingerprint}
    ensures Actionable(rows, inspected, baseline, i)
       <==> && rows[i].fingerprint !in inspected + Fingerprints(rows[..i])
            && rows[i].lastSeen >= baseline && rows[i].signal.Some?
    ensures ActionableRows(rows[..i + 1], inspected, baseline)
         == ActionableRows(rows[..i], inspected, baseline)
            + if Actionable(rows, inspected, baseline, i) then [rows[i]] else []
  {
    FirstRows(rows, i);
    assert forall j :: 0 <= j < i ==> rows[..i + 1][j] == rows[j] == rows[..i][j];
    assert rows[..i + 1][i] == rows[i];
    assert Actionable(rows[..i + 1], inspected, baseline, i) == Actionable(rows, inspected, baseline, i);
  }

  lemma NextRow(rows: seq<Row>, inspected: set<string>, baseline: int, s: State, cap: real, i: nat)
    requires i < |rows|
    ensures Fingerprints(rows[..i + 1]) == Fingerprints(rows[..i]) + {rows[i].fingerprint}
    ensures Actionable(rows, inspected, baseline, i)
       <==> && rows[i].fingerprint !in inspected + Fingerprints(rows[..i])
            && rows[i].lastSeen >= baseline && rows[i].signal.Some?
    ensures HandledFirst(s, rows, inspected, baseline, cap, i + 1)
         == if !Actionable(rows, inspected, baseline, i) || HandledFirst(s, rows, inspected, baseline, cap, i).1
            then HandledFirst(s, rows, inspected, baseline, cap, i)
            else HandledRow(HandledFirst(s, rows, inspected, baseline, cap, i).0, rows[i], cap)
  {
    NextIsActionable(rows, inspected, baseline, i);
    var before := ActionableRows(rows[..i], inspected, baseline);
    if Actionable(rows, inspected, baseline, i) {
      HandleOneMore(s, before, rows[i], cap);
    } else {
      assert before + [] == before;
    }
  }

  /** The first `k` rows handled. */
  function HandledFirst(s: State, rows: seq<Row>, inspected: set<string>, baseline: int, cap: real, k: nat): (State, bool)
    requires k <= |rows|
  {
    HandleAll(s, ActionableRows(rows[..k], inspected, baseline), cap)
  }

  lemma {:induction false} AbortedStays(s: State, rows: seq<Row>, inspected: set<string>, baseline: int, cap: real,
                                        k: nat, n: nat)
    requires k <= n <= |rows| && HandledFirst(s, rows, inspected, baseline, cap, k).1
    ensures HandledFirst(s, rows, inspected, baseline, cap, n) == HandledFirst(s, rows, inspected, baseline, cap, k)
    decreases n
  {
    if k < n {
      AbortedStays(s, rows, inspected, baseline, cap, k, n - 1);
      NextRow(rows, inspected, baseline, s, cap, n - 1);
    }
  }

  lemma TwoSteps(s: State, a: Step, b: Step)
    ensures RunFrom(s, [a, b]) == After(After(s, a), b)
  {
    assert [a, b][..1] == [a] && [a][..0] == [];
    assert RunFrom(s, [a]) == After(RunFrom(s, [a][..0]), a);
  }

  lemma ThreeSteps(s: State, a: Step, b: Step, c: Step)
    ensures RunFrom(s, [a, b, c]) == After(After(After(s, a), b), c)
  {
    assert [a, b, c][..2] == [a, b];
    TwoSteps(s, a, b);
  }

  // ---------------------------------------------------------------- safety of every run

  ghost predicate Distinct(calls: seq<Order>) {
    forall i, j :: 0 <= i < j < |calls| ==> calls[i].event != calls[j].event
  }

  ghost predicate Called(calls: seq<Order>, event: EventId) {
    exists i :: 0 <= i < |calls| && calls[i].event == event
  }

  /** What every reachable state satisfies. */
  ghost predicate Safe(s: State) {
    && Distinct(s.calls)
    && (forall i :: 0 <= i < |s.calls| ==>
          s.calls[i].event in s.intents && !s.intents[s.calls[i].event].Rejected?)
    && |ReconciledIn(s.intents)| <= s.reconciliations
    && |ActiveIn(s.intents)| <= 1
    && (!s.phase.Idle? ==> s.phase.order.event in s.intents && ActiveIn(s.intents) <= {s.phase.order.event})
    && (s.phase.Prepared? ==> !Called(s.calls, s.phase.order.event) && !s.intents[s.phase.order.event].Rejected?)
    && (s.phase.Calling? ==> Called(s.calls, s.phase.order.event))
  }

  lemma SafeIntents(s: State, event: EventId, state: IntentState)
    requires |ActiveIn(s.intents)| <= 1 && |ReconciledIn(s.intents)| <= s.reconciliations
    requires ActiveIn(s.intents) <= {event} && !state.Reconciled?
    ensures var next := s.intents[event := state];
            && |ActiveIn(next)| <= 1 && ActiveIn(next) <= {event}
            && |ReconciledIn(next)| <= s.reconciliations
  {
    var next := s.intents[event := state];
    assert ActiveIn(next) <= {event};
    SubsetSize(ActiveIn(next), {event});
    assert ReconciledIn(next) <= ReconciledIn(s.intents);
    SubsetSize(ReconciledIn(next), ReconciledIn(s.intents));
  }

  lemma OperatorKeepsSafe(s: State, event: EventId)
    requires Safe(s) && event in s.intents && Active(s.intents[event])
    ensures Safe(After(s, OperatorReconciles(event)))
  {
    var next := s.intents[event := Reconciled];
    assert ActiveIn(next) <= ActiveIn(s.intents);
    SubsetSize(ActiveIn(next), ActiveIn(s.intents));
    assert ReconciledIn(next) == ReconciledIn(s.intents) + {event};
  }

  lemma StepKeepsSafe(s: State, step: Step)
    requires Safe(s)
    ensures Safe(After(s, step))
  {
    match step
    case Begin(order, cap, readChecksPass) =>
      if MayBegin(s, order, cap, readChecksPass) {
        SafeIntents(s, order.event, Preparing);
      }
    case PreSubmitRejection =>
      if s.phase.Prepared? { SafeIntents(s, s.phase.order.event, Rejected); }
    case CreateOrder =>
      if s.phase.Prepared? { CallKeepsSafe(s); }
    case AmbiguousOutcome =>
      if s.phase.Calling? { SafeIntents(s, s.phase.order.event, Unknown); }
    case Acknowledgement =>
      if s.phase.Calling? { SafeIntents(s, s.phase.order.event, Submitted); }
    case Crash =>
    case OperatorReconciles(event) =>
      if event in s.intents && Active(s.intents[event]) { OperatorKeepsSafe(s, event); }
  }

  lemma CallKeepsSafe(s: State)
    requires Safe(s) && s.phase.Prepared?
    ensures Safe(After(s, CreateOrder))
  {
    var next := s.calls + [s.phase.order];
    assert next[|s.calls|].event == s.phase.order.event;
  }

  lemma {:induction false} EveryRunIsSafe(steps: seq<Step>)
    ensures Safe(Run(steps))
  {
    if steps != [] {
      EveryRunIsSafe(steps[..|steps| - 1]);
      StepKeepsSafe(Run(steps[..|steps| - 1]), steps[|steps| - 1]);
    }
  }

  function EventsOf(calls: seq<Order>): set<EventId> {
    set i | 0 <= i < |calls| :: calls[i].event
  }

  lemma {:induction false} DistinctSize(calls: seq<Order>)
    requires Distinct(calls)
    ensures |EventsOf(calls)| == |calls|
  {
    if calls != [] {
      var n := |calls| - 1;
      var front := calls[..n];
      assert forall i :: 0 <= i < n ==> front[i] == calls[i];
      DistinctSize(front);
      assert EventsOf(calls) == EventsOf(front) + {calls[n].event};
    }
  }

  /** In every run with crashes and restarts, create_order is called at most once per event,
      at most once more than operators have reconciled, and an intent whose call may have
      started is never recorded as rejected. */
  lemma CreateOrderIsRationed(steps: seq<Step>)
    ensures var s := Run(steps);
            && Distinct(s.calls)
            && |s.calls| <= 1 + s.reconciliations
            && (forall i :: 0 <= i < |s.calls| ==>
                  s.calls[i].event in s.intents && !s.intents[s.calls[i].event].Rejected?)
  {
    EveryRunIsSafe(steps);
    var s := Run(steps);
    var events, active, reconciled := EventsOf(s.calls), ActiveIn(s.intents), ReconciledIn(s.intents);
    DistinctSize(s.calls);
    assert events <= active + reconciled;
    SubsetSize(events, active + reconciled);
    assert active !! reconciled;
    assert |active + reconciled| == |active| + |reconciled|;
  }

  // ---------------------------------------------------------------- the daily cap

  function TotalOn(orders: seq<Order>, day: Day): real {
    if orders == [] then 0.0
    else TotalOn(orders[..|orders| - 1], day)
         + if orders[|orders| - 1].day == day then orders[|orders| - 1].quote else 0.0
  }

  lemma TotalOnAppend(orders: seq<Order>, o: Order, day: Day)
    ensures TotalOn(orders + [o], day) == TotalOn(orders, day) + if o.day == day then o.quote else 0.0
  {
    assert (orders + [o])[..|orders|] == orders;
  }

  ghost predicate CapsAre(steps: seq<Step>, cap: real) {
    forall i :: 0 <= i < |steps| && steps[i].Begin? ==> steps[i].cap == cap
  }

  ghost predicate WithinCap(s: State, cap: real, day: Day) {
    && SubmittedOn(s.daily, day) == TotalOn(s.acknowledged, day) <= cap
    && (!s.phase.Idle? && s.phase.order.day == day ==> TotalOn(s.acknowledged, day) + s.phase.order.quote <= cap)
  }

  lemma CapAcknowledgment(s: State, cap: real, day: Day)
    requires WithinCap(s, cap, day) && s.phase.Calling?
    ensures WithinCap(After(s, Acknowledgement), cap, day)
  {
    var o, next := s.phase.order, After(s, Acknowledgement);
    TotalOnAppend(s.acknowledged, o, day);
    assert SubmittedOn(next.daily, day) == SubmittedOn(s.daily, day) + if o.day == day then o.quote else 0.0;
  }

  lemma CapStep(s: State, step: Step, cap: real, day: Day)
    requires WithinCap(s, cap, day) && (step.Begin? ==> step.cap == cap)
    ensures WithinCap(After(s, step), cap, day)
  {
    if step.Acknowledgement? && s.phase.Calling? {
      CapAcknowledgment(s, cap, day);
    } else {
      var next := After(s, step);
      assert next.acknowledged == s.acknowledged && next.daily == s.daily;
    }
  }

  /** The day's recorded total is the acknowledged one, and it stays within the cap. */
  lemma {:induction false} AcknowledgedStaysWithinTheCap(steps: seq<Step>, cap: real, day: Day)
    requires cap >= 0.0 && CapsAre(steps, cap)
    ensures WithinCap(Run(steps), cap, day)
  {
    if steps != [] {
      var n := |steps| - 1;
      AcknowledgedStaysWithinTheCap(steps[..n], cap, day);
      assert steps[n].Begin? ==> steps[n].cap == cap;
      CapStep(Run(steps[..n]), steps[n], cap, day);
    }
  }

  /** The calls whose acknowledgment never reached the tables: lost answers, crashes after the
      call, and the call in progress. */
  function Unacknowledged(calls: seq<Order>, acknowledged: seq<Order>): seq<Order> {
    if calls == [] then []
    else
      var front, last := Unacknowledged(calls[..|calls| - 1], acknowledged), calls[|calls| - 1];
      if last in acknowledged then front else front + [last]
  }

  /** Only made calls are acknowledged, and the one in progress is not yet. */
  ghost predicate CallsAreTracked(s: State) {
    && (forall o :: o in s.acknowledged ==> o in s.calls)
    && (s.phase.Calling? ==> s.calls != [] && s.calls[|s.calls| - 1] == s.phase.order && s.phase.order !in s.acknowledged)
  }

  ghost predicate Balanced(s: State, day: Day) {
    TotalOn(s.calls, day) == SubmittedOn(s.daily, day) + TotalOn(Unacknowledged(s.calls, s.acknowledged), day)
  }

  lemma UnacknowledgedCall(calls: seq<Order>, acknowledged: seq<Order>, o: Order)
    requires o !in acknowledged
    ensures Unacknowledged(calls + [o], acknowledged) == Unacknowledged(calls, acknowledged) + [o]
  {
    assert (calls + [o])[..|calls|] == calls;
  }

  lemma {:induction false} OtherAcknowledgment(calls: seq<Order>, acknowledged: seq<Order>, o: Order)
    requires o !in calls
    ensures Unacknowledged(calls, acknowledged + [o]) == Unacknowledged(calls, acknowledged)
  {
    if calls != [] {
      OtherAcknowledgment(calls[..|calls| - 1], acknowledged, o);
    }
  }

  lemma CallKeepsBalance(s: State, day: Day)
    requires Safe(s) && CallsAreTracked(s) && Balanced(s, day) && s.phase.Prepared?
    ensures CallsAreTracked(After(s, CreateOrder)) && Balanced(After(s, CreateOrder), day)
  {
    var o := s.phase.order;
    assert o !in s.calls;
    UnacknowledgedCall(s.calls, s.acknowledged, o);
    TotalOnAppend(s.calls, o, day);
    TotalOnAppend(Unacknowledged(s.calls, s.acknowledged), o, day);
  }

  lemma AcknowledgmentKeepsBalance(s: State, day: Day)
    requires Safe(s) && CallsAreTracked(s) && Balanced(s, day) && s.phase.Calling?
    ensures CallsAreTracked(After(s, Acknowledgement)) && Balanced(After(s, Acknowledgement), day)
  {
    var o, front := s.phase.order, s.calls[..|s.calls| - 1];
    assert s.calls == front + [o];
    assert o !in front by { assert forall i :: 0 <= i < |front| ==> front[i] == s.calls[i]; }
    LastIsAcknowledged(front, s.acknowledged, o, day);
    var next := After(s, Acknowledgement);
    assert next.calls == front + [o] && next.acknowledged == s.acknowledged + [o] && next.phase.Idle?;
    assert SubmittedOn(next.daily, day) == SubmittedOn(s.daily, day) + if o.day == day then o.quote else 0.0;
  }

  /** Acknowledging the last call takes exactly it out of the unacknowledged ones. */
  lemma LastIsAcknowledged(front: seq<Order>, acknowledged: seq<Order>, o: Order, day: Day)
    requires o !in front && o !in acknowledged
    ensures TotalOn(Unacknowledged(front + [o], acknowledged), day)
         == TotalOn(Unacknowledged(front + [o], acknowledged + [o]), day) + if o.day == day then o.quote else 0.0
  {
    UnacknowledgedCall(front, acknowledged, o);
    OtherAcknowledgment(front, acknowledged, o);
    assert (front + [o])[..|front|] == front;
    TotalOnAppend(Unacknowledged(front, acknowledged), o, day);
  }

  lemma StepKeepsBalance(s: State, step: Step, day: Day)
    requires Safe(s) && CallsAreTracked(s) && Balanced(s, day)
    ensures CallsAreTracked(After(s, step)) && Balanced(After(s, step), day)
  {
    if step.CreateOrder? && s.phase.Prepared? {
      CallKeepsBalance(s, day);
    } else if step.Acknowledgement? && s.phase.Calling? {
      AcknowledgmentKeepsBalance(s, day);
    } else {
      QuietStep(s, step);
      SameTablesBalance(s, After(s, step), day);
    }
  }

  /** Every other step calls and acknowledges nothing. */
  lemma QuietStep(s: State, step: Step)
    requires !(step.CreateOrder? && s.phase.Prepared?) && !(step.Acknowledgement? && s.phase.Calling?)
    ensures var next := After(s, step);
            && next.calls == s.calls && next.acknowledged == s.acknowledged && next.daily == s.daily
            && (next.phase.Calling? ==> next.phase == s.phase)
  {
  }

  lemma SameTablesBalance(s: State, t: State, day: Day)
    requires CallsAreTracked(s) && Balanced(s, day)
    requires t.calls == s.calls && t.acknowledged == s.acknowledged && t.daily == s.daily
    requires t.phase.Calling? ==> t.phase == s.phase
    ensures CallsAreTracked(t) && Balanced(t, day)
  {
  }

  /** What was sent on a day is what was recorded plus what was never acknowledged, in every
      run with crashes, lost answers and changing caps. */
  lemma {:induction false} SentIsRecordedPlusUnacknowledged(steps: seq<Step>, day: Day)
    ensures CallsAreTracked(Run(steps)) && Balanced(Run(steps), day)
  {
    if steps != [] {
      var n := |steps| - 1;
      SentIsRecordedPlusUnacknowledged(steps[..n], day);
      EveryRunIsSafe(steps[..n]);
      StepKeepsBalance(Run(steps[..n]), steps[n], day);
    }
  }

  /** An admitted order keeps what is sent that day within the cap exactly when the budget also
      covers the unacknowledged calls, which the cap check does not count. */
  lemma CallStaysWithinTheCapIff(steps: seq<Step>, order: Order, cap: real)
    requires MayBegin(Run(steps), order, cap, true)
    ensures var s := Run(steps);
            var unacknowledged := TotalOn(Unacknowledged(s.calls, s.acknowledged), order.day);
            var sent := TotalOn(After(After(s, Begin(order, cap, true)), CreateOrder).calls, order.day);
            sent <= cap <==> SubmittedOn(s.daily, order.day) + unacknowledged + order.quote <= cap
  {
    SentIsRecordedPlusUnacknowledged(steps, order.day);
    TotalOnAppend(Run(steps).calls, order, order.day);
  }

  lemma {:induction false} AllAcknowledged(calls: seq<Order>, acknowledged: seq<Order>, day: Day)
    requires forall o :: o in calls && o.day == day ==> o in acknowledged
    ensures TotalOn(Unacknowledged(calls, acknowledged), day) == 0.0
  {
    if calls != [] {
      var n := |calls| - 1;
      AllAcknowledged(calls[..n], acknowledged, day);
      if calls[n] !in acknowledged {
        TotalOnAppend(Unacknowledged(calls[..n], acknowledged), calls[n], day);
      }
    }
  }

  /** So the cap bounds what is sent on a day without an unacknowledged call. */
  lemma SentStaysWithinTheCap(steps: seq<Step>, cap: real, day: Day)
    requires cap >= 0.0 && CapsAre(steps, cap)
    requires forall o :: o in Run(steps).calls && o.day == day ==> o in Run(steps).acknowledged
    ensures TotalOn(Run(steps).calls, day) == SubmittedOn(Run(steps).daily, day) <= cap
  {
    SentIsRecordedPlusUnacknowledged(steps, day);
    AllAcknowledged(Run(steps).calls, Run(steps).acknowledged, day);
    AcknowledgedStaysWithinTheCap(steps, cap, day);
  }

  /** An ambiguous call, reconciled by an operator, leaves the day's total untouched. */
  lemma ReconciledCall(first: Order, cap: real)
    requires first.quote <= cap
    ensures RunFrom(INITIAL, [Begin(first, cap, true), CreateOrder, AmbiguousOutcome] + [OperatorReconciles(first.event)])
         == State(map[first.event := Reconciled], map[], Idle, [first], [], 1)
  {
    var early, op := [Begin(first, cap, true), CreateOrder, AmbiguousOutcome], OperatorReconciles(first.event);
    ThreeSteps(INITIAL, early[0], early[1], early[2]);
    var a := RunFrom(INITIAL, early);
    assert ActiveIn(INITIAL.intents) == {};
    assert a == State(map[first.event := Unknown], map[], Idle, [first], [], 0);
    RunAppend(INITIAL, early, [op]);
    assert [op][..0] == [];
  }

  lemma SecondCall(s: State, second: Order, cap: real)
    requires s.phase.Idle? && s.daily == map[] && s.acknowledged == []
    requires ActiveIn(s.intents) == {} && second.event !in s.intents && second.quote <= cap
    ensures var t := RunFrom(s, [Begin(second, cap, true), CreateOrder, Acknowledgement]);
            t.calls == s.calls + [second] && SubmittedOn(t.daily, second.day) == second.quote
  {
    ThreeSteps(s, Begin(second, cap, true), CreateOrder, Acknowledgement);
  }

  /** The cap does not bound what was sent: an ambiguous call is not added to the day's total,
      so once an operator has reconciled it the same budget is available again. */
  lemma AmbiguousCallsEscapeTheCap(first: Order, second: Order, cap: real)
    requires first.event != second.event && first.day == second.day && first.quote == second.quote == cap > 0.0
    ensures var s := Run([Begin(first, cap, true), CreateOrder, AmbiguousOutcome, OperatorReconciles(first.event),
                          Begin(second, cap, true), CreateOrder, Acknowledgement]);
            TotalOn(s.calls, first.day) == 2.0 * cap && SubmittedOn(s.daily, first.day) == cap
  {
    var early := [Begin(first, cap, true), CreateOrder, AmbiguousOutcome] + [OperatorReconciles(first.event)];
    var late := [Begin(second, cap, true), CreateOrder, Acknowledgement];
    ReconciledCall(first, cap);
    var s := RunFrom(INITIAL, early);
    assert ActiveIn(s.intents) == {};
    SecondCall(s, second, cap);
    RunAppend(INITIAL, early, late);
    TotalOnAppend([], first, first.day);
    TotalOnAppend([first], second, first.day);
    assert [] + [first] == [first];
    assert early + late == [Begin(first, cap, true), CreateOrder, AmbiguousOutcome, OperatorReconciles(first.event),
                            Begin(second, cap, true), CreateOrder, Acknowledgement];
  }
}
