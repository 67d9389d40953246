/**
 * Calls of a client that overlap.  The calls share one budget, whose lock
 * serves them one at a time, and each of them may end at any moment: the guard
 * that makes its deposit runs on return and on cancellation alike.  A run is a
 * list of steps of any calls, so every interleaving is one.
 */
module Overlap {
  import opened Prelude
  import opened RetryBudget
  import RetryLoop

  datatype Client = Client(p: Params, start: nat, maxRetries: nat)

  /** One call: when its retries were granted, whether one was refused, and
      when it ended. */
  datatype Call = Call(replayable: bool, retriedAt: seq<nat>, refused: bool, endedAt: Option<nat>)

  /** The calls so far, ended or not, and what the budget was asked so far. */
  datatype State = State(calls: seq<Call>, ops: seq<Op>)

  const INITIAL := State([], [])

  datatype Step =
    | Begin(replayable: bool)     // a call makes its guard and its first attempt
    | Ask(id: nat, now: nat)      // an attempt is retryable; a grant is followed by the next attempt at once
    | End(id: nat, now: nat)      // return or cancellation

  predicate MayAsk(c: Client, call: Call) {
    call.endedAt.None? && call.replayable && !call.refused && |call.retriedAt| < c.maxRetries
  }

  predicate Granted(c: Client, s: State, now: nat) {
    Done(c.p, Run(c.p, c.start, s.ops, SLOTS).0, Op.Withdraw(now), SLOTS).1
  }

  function Asked(call: Call, granted: bool, now: nat): Call {
    if granted then call.(retriedAt := call.retriedAt + [now]) else call.(refused := true)
  }

  /** None when the step cannot happen. */
  function Apply(c: Client, s: State, step: Step): Option<State> {
    match step
    case Begin(replayable) => Some(s.(calls := s.calls + [Call(replayable, [], false, None)]))
    case Ask(id, now) =>
      if id < |s.calls| && MayAsk(c, s.calls[id])
      then Some(State(s.calls[id := Asked(s.calls[id], Granted(c, s, now), now)], s.ops + [Op.Withdraw(now)]))
      else None
    case End(id, now) =>
      if id < |s.calls| && s.calls[id].endedAt.None?
      then Some(State(s.calls[id := s.calls[id].(endedAt := Some(now))], s.ops + [Op.Deposit(now)]))
      else None
  }

  function Exec(c: Client, s: State, run: seq<Step>): Option<State>
    decreases |run|
  {
    if run == [] then Some(s)
    else match Apply(c, s, run[0])
      case None => None
      case Some(next) => Exec(c, next, run[1..])
  }

  // ----- Sums over calls --------------------------------------------------

  function SumOf(f: Call -> nat, calls: seq<Call>): nat {
    if calls == [] then 0 else f(calls[0]) + SumOf(f, calls[1..])
  }

  lemma {:induction false} SumSnoc(f: Call -> nat, calls: seq<Call>, call: Call)
    ensures SumOf(f, calls + [call]) == SumOf(f, calls) + f(call)
  {
    if calls == [] {
      assert calls + [call] == [call] && [call][1..] == [];
    } else {
      assert (calls + [call])[1..] == calls[1..] + [call];
      SumSnoc(f, calls[1..], call);
    }
  }

  lemma {:induction false} SumUpdate(f: Call -> nat, calls: seq<Call>, i: nat, call: Call)
    requires i < |calls|
    ensures SumOf(f, calls[i := call]) + f(calls[i]) == SumOf(f, calls) + f(call)
  {
    if i == 0 {
      assert calls[0 := call][1..] == calls[1..];
    } else {
      assert calls[i := call][1..] == calls[1..][i - 1 := call];
      SumUpdate(f, calls[1..], i - 1, call);
    }
  }

  /** How many of the times are less than `span` before `now`. */
  function TimesIn(times: seq<nat>, now: nat, span: nat): nat {
    if times == [] then 0
    else TimesIn(times[..|times| - 1], now, span) + if now - times[|times| - 1] < span then 1 else 0
  }

  function Attempts(): Call -> nat {
    (call: Call) => 1 + |call.retriedAt|
  }

  function Refusals(): Call -> nat {
    (call: Call) => if call.refused then 1 else 0
  }

  function Ended(): Call -> nat {
    (call: Call) => if call.endedAt.Some? then 1 else 0
  }

  function RetriesIn(now: nat, span: nat): Call -> nat {
    (call: Call) => TimesIn(call.retriedAt, now, span)
  }

  function EndsIn(now: nat, span: nat): Call -> nat {
    (call: Call) => if call.endedAt.Some? && now - call.endedAt.value < span then 1 else 0
  }

  // ----- The accounts -----------------------------------------------------

  /** Over all calls, running and ended, attempts are requests plus granted
      withdrawals, and every call that has ended made one deposit. */
  ghost predicate Balanced(s: State, log: seq<Op>) {
    && SumOf(Attempts(), s.calls) == |s.calls| + Total(log, false)
    && SumOf(Ended(), s.calls) == Total(log, true)
    && SumOf(Attempts(), s.calls) - |s.calls| + SumOf(Refusals(), s.calls) == Total(s.ops, false)
  }

  /** The same by time. */
  ghost predicate BalancedIn(s: State, log: seq<Op>, now: nat, span: nat) {
    && SumOf(RetriesIn(now, span), s.calls) == Recent(log, false, now, span)
    && SumOf(EndsIn(now, span), s.calls) == Recent(log, true, now, span)
  }

  /** No call makes more than its retries, and a stream is sent once. */
  predicate Bounded(c: Client, s: State) {
    forall i :: 0 <= i < |s.calls| ==>
      |s.calls[i].retriedAt| <= c.maxRetries && (!s.calls[i].replayable ==> s.calls[i].retriedAt == [])
  }

  function Log(c: Client, s: State): seq<Op> {
    Run(c.p, c.start, s.ops, SLOTS).1
  }

  lemma StepLog(c: Client, s: State, step: Step)
    requires Apply(c, s, step).Some?
    ensures var t := Apply(c, s, step).value;
            match step
            case Begin(_) => Log(c, t) == Log(c, s) && t.ops == s.ops
            case Ask(_, now) => Log(c, t) == if Granted(c, s, now) then Log(c, s) + [Op.Withdraw(now)] else Log(c, s)
            case End(_, now) => Log(c, t) == Log(c, s) + [Op.Deposit(now)]
  {
    hide Run;
    match step
    case Begin(_) =>
    case Ask(_, now) => RunSnoc(c.p, c.start, s.ops, Op.Withdraw(now), SLOTS);
    case End(_, now) => RunSnoc(c.p, c.start, s.ops, Op.Deposit(now), SLOTS);
  }

  lemma TotalSnoc(es: seq<Op>, op: Op)
    ensures Total(es + [op], op.Deposit?) == Total(es, op.Deposit?) + 1
    ensures Total(es + [op], !op.Deposit?) == Total(es, !op.Deposit?)
  {
    TotalConcat(es, [op], true);
    TotalConcat(es, [op], false);
    TotalOne(op);
  }

  /** One call changes, and the log grows by what that call was granted. */
  lemma UpdateKeepsBalance(s: State, log: seq<Op>, id: nat, call: Call, op: Op, granted: bool, t: State)
    requires Balanced(s, log) && id < |s.calls| && t == State(s.calls[id := call], s.ops + [op])
    requires match op
             case Withdraw(now) =>
               s.calls[id].endedAt.None? && !s.calls[id].refused && call == Asked(s.calls[id], granted, now)
             case Deposit(now) =>
               s.calls[id].endedAt.None? && granted && call == s.calls[id].(endedAt := Some(now))
    ensures Balanced(t, if granted then log + [op] else log)
  {
    hide SumOf, Total;
    SumUpdate(Attempts(), s.calls, id, call);
    SumUpdate(Ended(), s.calls, id, call);
    SumUpdate(Refusals(), s.calls, id, call);
    TotalSnoc(s.ops, op);
    TotalSnoc(log, op);
  }

  lemma BeginKeepsBalance(s: State, log: seq<Op>, replayable: bool, t: State)
    requires Balanced(s, log) && t == State(s.calls + [Call(replayable, [], false, None)], s.ops)
    ensures Balanced(t, log)
  {
    hide SumOf, Total;
    SumSnoc(Attempts(), s.calls, Call(replayable, [], false, None));
    SumSnoc(Ended(), s.calls, Call(replayable, [], false, None));
    SumSnoc(Refusals(), s.calls, Call(replayable, [], false, None));
  }

  lemma StepKeepsBalance(c: Client, s: State, step: Step)
    requires Apply(c, s, step).Some? && Balanced(s, Log(c, s))
    ensures var t := Apply(c, s, step).value; Balanced(t, Log(c, t))
  {
    StepLog(c, s, step);
    hide Log, Granted, Balanced, Asked;
    var t := Apply(c, s, step).value;
    match step
    case Begin(replayable) =>
      BeginKeepsBalance(s, Log(c, s), replayable, t);
    case Ask(id, now) =>
      var granted := Granted(c, s, now);
      UpdateKeepsBalance(s, Log(c, s), id, Asked(s.calls[id], granted, now), Op.Withdraw(now), granted, t);
    case End(id, now) =>
      UpdateKeepsBalance(s, Log(c, s), id, s.calls[id].(endedAt := Some(now)), Op.Deposit(now), true, t);
  }

  /** What one more granted operation does to the calls' times. */
  lemma CallTimes(call: Call, at: nat, now: nat, span: nat)
    requires call.endedAt.None?
    ensures RetriesIn(now, span)(Asked(call, true, at))
            == RetriesIn(now, span)(call) + One(Op.Withdraw(at), false, now, span)
    ensures RetriesIn(now, span)(Asked(call, false, at)) == RetriesIn(now, span)(call)
    ensures EndsIn(now, span)(Asked(call, true, at)) == EndsIn(now, span)(Asked(call, false, at)) == 0
    ensures EndsIn(now, span)(call) == 0
    ensures RetriesIn(now, span)(call.(endedAt := Some(at))) == RetriesIn(now, span)(call)
    ensures EndsIn(now, span)(call.(endedAt := Some(at))) == One(Op.Deposit(at), true, now, span)
    ensures One(Op.Withdraw(at), true, now, span) == One(Op.Deposit(at), false, now, span) == 0
  {
    assert (call.retriedAt + [at])[..|call.retriedAt|] == call.retriedAt;
  }

  lemma NewCallTimes(replayable: bool, now: nat, span: nat)
    ensures RetriesIn(now, span)(Call(replayable, [], false, None)) == 0
    ensures EndsIn(now, span)(Call(replayable, [], false, None)) == 0
  {
  }

  /** One call changes, and the log grows by what that call was granted. */
  lemma UpdateKeepsTimes(
      s: State, log: seq<Op>, id: nat, call: Call, op: Op, granted: bool, t: State, now: nat, span: nat)
    requires BalancedIn(s, log, now, span) && id < |s.calls| && t.calls == s.calls[id := call]
    requires var gain := (deposits: bool) => if granted then One(op, deposits, now, span) else 0;
             && RetriesIn(now, span)(call) == RetriesIn(now, span)(s.calls[id]) + gain(false)
             && EndsIn(now, span)(call) == EndsIn(now, span)(s.calls[id]) + gain(true)
    ensures BalancedIn(t, if granted then log + [op] else log, now, span)
  {
    hide SumOf, Recent, One, RetriesIn, EndsIn;
    SumUpdate(RetriesIn(now, span), s.calls, id, call);
    SumUpdate(EndsIn(now, span), s.calls, id, call);
    RecentSnoc(log, op, false, now, span);
    RecentSnoc(log, op, true, now, span);
  }

  lemma BeginKeepsTimes(s: State, log: seq<Op>, replayable: bool, t: State, now: nat, span: nat)
    requires BalancedIn(s, log, now, span) && t.calls == s.calls + [Call(replayable, [], false, None)]
    ensures BalancedIn(t, log, now, span)
  {
    hide SumOf, Recent;
    NewCallTimes(replayable, now, span);
    SumSnoc(RetriesIn(now, span), s.calls, Call(replayable, [], false, None));
    SumSnoc(EndsIn(now, span), s.calls, Call(replayable, [], false, None));
  }

  lemma StepKeepsTimes(c: Client, s: State, step: Step, now: nat, span: nat)
    requires Apply(c, s, step).Some? && BalancedIn(s, Log(c, s), now, span)
    ensures var t := Apply(c, s, step).value; BalancedIn(t, Log(c, t), now, span)
  {
    StepLog(c, s, step);
    hide Log, Granted, One, RetriesIn, EndsIn, BalancedIn, Asked;
    var t := Apply(c, s, step).value;
    match step
    case Begin(replayable) =>
      BeginKeepsTimes(s, Log(c, s), replayable, t, now, span);
    case Ask(id, at) =>
      CallTimes(s.calls[id], at, now, span);
      var granted := Granted(c, s, at);
      UpdateKeepsTimes(
        s, Log(c, s), id, Asked(s.calls[id], granted, at), Op.Withdraw(at), granted, t, now, span);
    case End(id, at) =>
      CallTimes(s.calls[id], at, now, span);
      UpdateKeepsTimes(
        s, Log(c, s), id, s.calls[id].(endedAt := Some(at)), Op.Deposit(at), true, t, now, span);
  }

  lemma {:induction false} RunKeepsAccounts(c: Client, s: State, run: seq<Step>, now: nat, span: nat)
    requires Exec(c, s, run).Some?
    requires Balanced(s, Log(c, s)) && BalancedIn(s, Log(c, s), now, span) && Bounded(c, s)
    ensures var t := Exec(c, s, run).value;
            Balanced(t, Log(c, t)) && BalancedIn(t, Log(c, t), now, span) && Bounded(c, t)
    decreases |run|
  {
    if run != [] {
      StepKeepsBalance(c, s, run[0]);
      StepKeepsTimes(c, s, run[0], now, span);
      StepKeepsBounds(c, s, run[0]);
      hide Apply, Balanced, BalancedIn, Bounded, Log;
      RunKeepsAccounts(c, Apply(c, s, run[0]).value, run[1..], now, span);
    }
  }

  lemma StepKeepsBounds(c: Client, s: State, step: Step)
    requires Apply(c, s, step).Some? && Bounded(c, s)
    ensures Bounded(c, Apply(c, s, step).value)
  {
    hide Granted;
  }

  /** Under every interleaving of calls, with cancellations anywhere: over all
      calls attempts are requests plus granted withdrawals; deposits are the
      calls that have ended; every question to the budget was granted or is its
      call's one refusal; and no call exceeds its retries. */
  lemma OverlappingTotals(c: Client, run: seq<Step>, s: State)
    requires Exec(c, INITIAL, run) == Some(s)
    ensures SumOf(Attempts(), s.calls) == |s.calls| + Total(Log(c, s), false)
    ensures SumOf(Ended(), s.calls) == Total(Log(c, s), true)
    ensures Total(s.ops, false) == Total(Log(c, s), false) + SumOf(Refusals(), s.calls)
    ensures forall i :: 0 <= i < |s.calls| ==>
              1 <= Attempts()(s.calls[i]) <= (if s.calls[i].replayable then c.maxRetries else 0) + 1
  {
    RunKeepsAccounts(c, INITIAL, run, 0, 0);
  }

  lemma {:induction false} RefusalsWithinCalls(calls: seq<Call>)
    ensures SumOf(Refusals(), calls) <= |calls|
  {
    if calls != [] {
      RefusalsWithinCalls(calls[1..]);
    }
  }

  // ----- A call by itself -------------------------------------------------

  function Asks(id: nat, clock: nat -> nat, n: nat): seq<Step> {
    seq(n, i requires 0 <= i < n => Ask(id, clock(i)))
  }

  lemma {:induction false} ExecAppend(c: Client, s: State, a: seq<Step>, b: seq<Step>)
    requires Exec(c, s, a).Some?
    ensures Exec(c, s, a + b) == Exec(c, Exec(c, s, a).value, b)
    decreases |a|
  {
    if a == [] {
      assert a + b == b;
    } else {
      assert (a + b)[1..] == a[1..] + b;
      ExecAppend(c, Apply(c, s, a[0]).value, a[1..], b);
    }
  }

  lemma ExecOne(c: Client, s: State, step: Step)
    ensures Exec(c, s, [step]) == Apply(c, s, step)
  {
    assert [step][1..] == [];
  }

  /** The state `n` granted questions into a call. */
  ghost predicate Grants(s: State, id: nat, t: State, clock: nat -> nat, n: nat) {
    && id < |s.calls| && |t.calls| == |s.calls|
    && t.ops == s.ops + RetryLoop.Withdrawals(clock, n)
    && t.calls[id] == s.calls[id].(retriedAt := s.calls[id].retriedAt + seq(n, i requires 0 <= i < n => clock(i)))
  }

  lemma NoAsks(s: State, id: nat, clock: nat -> nat)
    requires id < |s.calls| && s.calls[id] == Call(true, [], false, None)
    ensures Asks(id, clock, 0) == [] && Grants(s, id, s, clock, 0)
  {
    assert s.ops + RetryLoop.Withdrawals(clock, 0) == s.ops;
  }

  lemma NextAsk(c: Client, s: State, id: nat, t: State, clock: nat -> nat, n: nat)
    requires Grants(s, id, t, clock, n) && s.calls[id] == Call(true, [], false, None) && n < c.maxRetries
    requires RetryLoop.BudgetGrants(RetryLoop.Ledger(c.p, c.start, s.ops), clock, n)
    ensures Apply(c, t, Ask(id, clock(n))).Some?
    ensures Grants(s, id, Apply(c, t, Ask(id, clock(n))).value, clock, n + 1)
  {
    assert Granted(c, t, clock(n));
    hide Granted, RetryLoop.BudgetGrants;
    MoreWithdrawals(s.ops, clock, n);
    assert seq(n, i requires 0 <= i < n => clock(i)) + [clock(n)] == seq(n + 1, i requires 0 <= i < n + 1 => clock(i));
  }

  lemma {:induction false} AsksAreGranted(c: Client, s: State, id: nat, clock: nat -> nat, n: nat)
    requires id < |s.calls| && s.calls[id] == Call(true, [], false, None) && n <= c.maxRetries
    requires forall i :: 0 <= i < n ==> RetryLoop.BudgetGrants(RetryLoop.Ledger(c.p, c.start, s.ops), clock, i)
    ensures Exec(c, s, Asks(id, clock, n)).Some? && Grants(s, id, Exec(c, s, Asks(id, clock, n)).value, clock, n)
  {
    if n == 0 {
      NoAsks(s, id, clock);
    } else {
      AsksAreGranted(c, s, id, clock, n - 1);
      var t := Exec(c, s, Asks(id, clock, n - 1)).value;
      assert Asks(id, clock, n) == Asks(id, clock, n - 1) + [Ask(id, clock(n - 1))];
      hide Apply, Exec, Grants, Asks, RetryLoop.BudgetGrants;
      NextAsk(c, s, id, t, clock, n - 1);
      ExecAppend(c, s, Asks(id, clock, n - 1), [Ask(id, clock(n - 1))]);
      ExecOne(c, t, Ask(id, clock(n - 1)));
    }
  }

  lemma MoreWithdrawals(ops: seq<Op>, clock: nat -> nat, n: nat)
    ensures ops + RetryLoop.Withdrawals(clock, n) + [Op.Withdraw(clock(n))] == ops + RetryLoop.Withdrawals(clock, n + 1)
  {
  }

  /** A call whose retries are over but for its end. */
  ghost predicate AllAsked(s: State, id: nat, t: State, clock: nat -> nat, n: nat, asked: nat) {
    && id < |s.calls| && |t.calls| == |s.calls|
    && t.ops == s.ops + RetryLoop.Withdrawals(clock, asked)
    && |t.calls[id].retriedAt| == n - 1
    && (t.calls[id].refused <==> asked == n)
    && t.calls[id].endedAt == None
  }

  lemma LastAsk(c: Client, s: State, id: nat, clock: nat -> nat, n: nat, t: State)
    requires n >= 1 && Grants(s, id, t, clock, n - 1) && s.calls[id] == Call(true, [], false, None) && n <= c.maxRetries
    requires !RetryLoop.BudgetGrants(RetryLoop.Ledger(c.p, c.start, s.ops), clock, n - 1)
    ensures Apply(c, t, Ask(id, clock(n - 1))).Some?
    ensures AllAsked(s, id, Apply(c, t, Ask(id, clock(n - 1))).value, clock, n, n)
  {
    assert !Granted(c, t, clock(n - 1));
    MoreWithdrawals(s.ops, clock, n - 1);
    hide Granted;
  }

  lemma NoMoreAsks(s: State, id: nat, t: State, clock: nat -> nat, n: nat)
    requires n >= 1 && Grants(s, id, t, clock, n - 1) && s.calls[id] == Call(true, [], false, None)
    ensures AllAsked(s, id, t, clock, n, n - 1)
  {
  }

  lemma AsksAreAnswered(c: Client, s: State, id: nat, clock: nat -> nat, n: nat, asked: nat)
    requires id < |s.calls| && s.calls[id] == Call(true, [], false, None)
    requires 1 <= n <= c.maxRetries + 1 && n - 1 <= asked <= n
    requires forall i :: 0 <= i < n - 1 ==> RetryLoop.BudgetGrants(RetryLoop.Ledger(c.p, c.start, s.ops), clock, i)
    requires asked == n ==>
               n <= c.maxRetries && !RetryLoop.BudgetGrants(RetryLoop.Ledger(c.p, c.start, s.ops), clock, n - 1)
    ensures Exec(c, s, Asks(id, clock, asked)).Some?
    ensures AllAsked(s, id, Exec(c, s, Asks(id, clock, asked)).value, clock, n, asked)
  {
    hide RetryLoop.BudgetGrants, Apply, Exec, AllAsked, Grants;
    AsksAreGranted(c, s, id, clock, n - 1);
    var t := Exec(c, s, Asks(id, clock, n - 1)).value;
    if asked == n {
      assert Asks(id, clock, n) == Asks(id, clock, n - 1) + [Ask(id, clock(n - 1))];
      LastAsk(c, s, id, clock, n, t);
      ExecAppend(c, s, Asks(id, clock, n - 1), [Ask(id, clock(n - 1))]);
      ExecOne(c, t, Ask(id, clock(n - 1)));
    } else {
      NoMoreAsks(s, id, t, clock, n);
    }
  }

  lemma CallAsks(c: Client, s: State, id: nat, call: RetryLoop.Call, n: nat, asked: nat)
    requires c.maxRetries == call.policy.maxRetries && id < |s.calls|
    requires RetryLoop.Executed(call, Some(RetryLoop.Ledger(c.p, c.start, s.ops)), n, asked)
    requires s.calls[id] == Call(RetryLoop.Replayable(call.body), [], false, None)
    ensures Exec(c, s, Asks(id, call.clock, asked)).Some?
    ensures AllAsked(s, id, Exec(c, s, Asks(id, call.clock, asked)).value, call.clock, n, asked)
  {
    var ledger, clock := RetryLoop.Ledger(c.p, c.start, s.ops), call.clock;
    EarlierAreGranted(call, ledger, n, asked);
    RetryLoop.AttemptsAreBounded(call, Some(ledger), n, asked);
    LastIsRefused(call, ledger, n, asked);
    hide RetryLoop.Executed, RetryLoop.BudgetGrants;
    if RetryLoop.Replayable(call.body) {
      hide Exec, AllAsked;
      AsksAreAnswered(c, s, id, clock, n, asked);
    } else {
      assert Asks(id, clock, 0) == [] && s.ops + RetryLoop.Withdrawals(clock, 0) == s.ops;
    }
  }

  lemma EarlierAreGranted(call: RetryLoop.Call, ledger: RetryLoop.Ledger, n: nat, asked: nat)
    requires RetryLoop.Executed(call, Some(ledger), n, asked)
    ensures forall i :: 0 <= i < n - 1 ==> RetryLoop.BudgetGrants(ledger, call.clock, i)
  {
    RetryLoop.RetriesAreJustified(call, Some(ledger), n, asked);
    hide RetryLoop.Executed, RetryLoop.BudgetGrants;
    forall i | 0 <= i < n - 1 ensures RetryLoop.BudgetGrants(ledger, call.clock, i) {
      assert RetryLoop.Justified(call, Some(ledger), i);
    }
  }

  lemma LastIsRefused(call: RetryLoop.Call, ledger: RetryLoop.Ledger, n: nat, asked: nat)
    requires RetryLoop.Executed(call, Some(ledger), n, asked)
    ensures asked == n ==> n <= call.policy.maxRetries && !RetryLoop.BudgetGrants(ledger, call.clock, n - 1)
  {
    hide Done, Run;
  }

  /** The course that `Client::execute` takes when nothing overlaps it can be
      taken here: begin, ask as often as it asks, end.  It leaves the retries it
      made, a refusal if its last question was refused, and the same budget. */
  lemma ExecuteIsARun(c: Client, s: State, call: RetryLoop.Call, n: nat, asked: nat, end: nat)
    requires c.maxRetries == call.policy.maxRetries
    requires RetryLoop.Executed(call, Some(RetryLoop.Ledger(c.p, c.start, s.ops)), n, asked)
    ensures var id := |s.calls|;
            var run := [Begin(RetryLoop.Replayable(call.body))] + Asks(id, call.clock, asked) + [End(id, end)];
            && Exec(c, s, run).Some?
            && var t := Exec(c, s, run).value;
               && t.ops == s.ops + RetryLoop.Withdrawals(call.clock, asked) + [Op.Deposit(end)]
               && |t.calls| == id + 1
               && |t.calls[id].retriedAt| == n - 1
               && (t.calls[id].refused <==> asked == n)
               && t.calls[id].endedAt == Some(end)
  {
    var id, first := |s.calls|, Begin(RetryLoop.Replayable(call.body));
    var asks := Asks(id, call.clock, asked);
    var a := Apply(c, s, first).value;
    ExecOne(c, s, first);
    hide RetryLoop.Executed, Asks;
    CallAsks(c, a, id, call, n, asked);
    ExecAppend(c, s, [first], asks);
    ExecAppend(c, s, [first] + asks, [End(id, end)]);
    ExecOne(c, Exec(c, a, asks).value, End(id, end));
  }

  // ----- What a client is promised ----------------------------------------

  /** With room for the attempts made so far, nothing is clamped at the bottom. */
  lemma AttemptsNeverClamp(c: Client, run: seq<Step>, s: State)
    requires c.p.Valid() && Exec(c, INITIAL, run) == Some(s)
    requires Enough(Bottom, c.p, SumOf(Attempts(), s.calls))
    ensures RunUnclamped(Bottom, c.p, c.start, s.ops, SLOTS)
  {
    hide SumOf, Exec, RunUnclamped, Total;
    OverlappingTotals(c, run, s);
    RefusalsWithinCalls(s.calls);
    Scale(c.p.withdrawAmount, Total(s.ops, false), SumOf(Attempts(), s.calls));
    FewCallsNeverSaturate(Bottom, c.p, c.start, s.ops);
  }

  /** The reserve and that many deposits pay for that many withdrawals. */
  predicate Covers(p: Params, deposits: nat, withdrawals: nat) {
    p.withdrawAmount * withdrawals <= p.reserve + p.depositAmount * deposits
  }

  lemma GrantedLog(c: Client, s: State, id: nat, now: nat)
    requires c.p.Valid() && Apply(c, s, Ask(id, now)).Some?
    ensures var t := Apply(c, s, Ask(id, now)).value;
            var log := Log(c, t);
            Granted(c, s, now) && Monotone(c.start, t.ops) && RunUnclamped(Bottom, c.p, c.start, t.ops, SLOTS) ==>
              Covers(c.p, Recent(log, true, now, 11 * c.p.slot), Recent(log, false, now, 5 * c.p.slot + 1))
  {
    hide Run, RunUnclamped, Recent, Monotone, Done;
    var ops := s.ops + [Op.Withdraw(now)];
    if Granted(c, s, now) && Monotone(c.start, ops) && RunUnclamped(Bottom, c.p, c.start, ops, SLOTS) {
      GrantedWithinRate(c.p, c.start, s.ops, now);
    }
  }

  lemma RefusedLog(c: Client, s: State, id: nat, now: nat)
    requires c.p.Valid() && Apply(c, s, Ask(id, now)).Some?
    ensures var t := Apply(c, s, Ask(id, now)).value;
            var log := Log(c, t);
            !Granted(c, s, now) && Monotone(c.start, t.ops) && RunUnclamped(Top, c.p, c.start, t.ops, SLOTS) ==>
              !Covers(c.p, Recent(log, true, now, 5 * c.p.slot + 1), Recent(log, false, now, 11 * c.p.slot) + 1)
  {
    hide Run, RunUnclamped, Recent, Monotone, Done;
    var ops := s.ops + [Op.Withdraw(now)];
    if !Granted(c, s, now) && Monotone(c.start, ops) && RunUnclamped(Top, c.p, c.start, ops, SLOTS) {
      RefusedOnlyWhenShort(c.p, c.start, s.ops, now);
    }
  }

  /** Which answer a question was given, read off the call that asked it. */
  lemma AskOutcome(c: Client, s: State, id: nat, now: nat)
    requires Apply(c, s, Ask(id, now)).Some?
    ensures var t := Apply(c, s, Ask(id, now)).value;
            id < |t.calls| && t.ops == s.ops + [Op.Withdraw(now)] && (t.calls[id].refused <==> !Granted(c, s, now))
  {
    hide Granted;
  }

  /** The promise to a client's user.  Whenever a retry is granted, the retries
      of all calls in the last five slots, this one included, cost at most the
      reserve and what the calls that ended in the last eleven slots have paid
      in; for a monotone clock, as long as all attempts made so far cost less
      than the range of the balance. */
  lemma ClientRetryRate(c: Client, run: seq<Step>, s: State, id: nat, now: nat)
    requires c.p.Valid() && Exec(c, INITIAL, run + [Ask(id, now)]) == Some(s)
    requires id < |s.calls| && !s.calls[id].refused
    requires Monotone(c.start, s.ops) && Enough(Bottom, c.p, SumOf(Attempts(), s.calls))
    ensures Covers(c.p, SumOf(EndsIn(now, 11 * c.p.slot), s.calls), SumOf(RetriesIn(now, 5 * c.p.slot + 1), s.calls))
  {
    hide *;
    var prev := LastStep(c, INITIAL, run, Ask(id, now));
    AttemptsNeverClamp(c, run + [Ask(id, now)], s);
    AskOutcome(c, prev, id, now);
    GrantedLog(c, prev, id, now);
    TimesAreLogged(c, run + [Ask(id, now)], s, now, 5 * c.p.slot + 1);
    TimesAreLogged(c, run + [Ask(id, now)], s, now, 11 * c.p.slot);
  }

  lemma TimesAreLogged(c: Client, run: seq<Step>, s: State, now: nat, span: nat)
    requires Exec(c, INITIAL, run) == Some(s)
    ensures SumOf(RetriesIn(now, span), s.calls) == Recent(Log(c, s), false, now, span)
    ensures SumOf(EndsIn(now, span), s.calls) == Recent(Log(c, s), true, now, span)
  {
    RunKeepsAccounts(c, INITIAL, run, now, span);
  }

  lemma {:induction false} LastStep(c: Client, s: State, run: seq<Step>, step: Step) returns (prev: State)
    requires Exec(c, s, run + [step]).Some?
    ensures Exec(c, s, run) == Some(prev) && Apply(c, prev, step) == Exec(c, s, run + [step])
    decreases |run|
  {
    if run == [] {
      assert run + [step] == [step] && [step][1..] == [];
      prev := s;
    } else {
      assert (run + [step])[1..] == run[1..] + [step];
      prev := LastStep(c, Apply(c, s, run[0]).value, run[1..], step);
    }
  }

  /** The other side: a retry is refused only if one more would cost more than
      the reserve and what the calls that ended in the last five slots have paid
      in, even against all the retries of the last eleven. */
  lemma ClientRefusal(c: Client, run: seq<Step>, s: State, id: nat, now: nat)
    requires c.p.Valid() && Exec(c, INITIAL, run + [Ask(id, now)]) == Some(s)
    requires id < |s.calls| && s.calls[id].refused
    requires Monotone(c.start, s.ops) && Enough(Top, c.p, SumOf(Ended(), s.calls))
    ensures !Covers(c.p, SumOf(EndsIn(now, 5 * c.p.slot + 1), s.calls),
                    SumOf(RetriesIn(now, 11 * c.p.slot), s.calls) + 1)
  {
    hide *;
    var prev := LastStep(c, INITIAL, run, Ask(id, now));
    var whole := run + [Ask(id, now)];
    EndsNeverClamp(c, whole, s);
    RefusedClient(c, prev, id, now, s);
    TimesAreLogged(c, whole, s, now, 5 * c.p.slot + 1);
    TimesAreLogged(c, whole, s, now, 11 * c.p.slot);
  }

  lemma RefusedClient(c: Client, prev: State, id: nat, now: nat, s: State)
    requires c.p.Valid() && Apply(c, prev, Ask(id, now)) == Some(s)
    requires id < |s.calls| && s.calls[id].refused
    requires Monotone(c.start, s.ops) && RunUnclamped(Top, c.p, c.start, s.ops, SLOTS)
    ensures !Covers(c.p, Recent(Log(c, s), true, now, 5 * c.p.slot + 1),
                    Recent(Log(c, s), false, now, 11 * c.p.slot) + 1)
  {
    hide *;
    AskOutcome(c, prev, id, now);
    RefusedLog(c, prev, id, now);
  }

  lemma EndsNeverClamp(c: Client, run: seq<Step>, s: State)
    requires c.p.Valid() && Exec(c, INITIAL, run) == Some(s)
    requires Enough(Top, c.p, SumOf(Ended(), s.calls))
    ensures RunUnclamped(Top, c.p, c.start, s.ops, SLOTS)
  {
    hide SumOf, RunUnclamped, Total;
    OverlappingTotals(c, run, s);
    DepositsAreLogged(c.p, c.start, s.ops);
    FewCallsNeverSaturate(Top, c.p, c.start, s.ops);
  }

  /** A deposit is always granted. */
  lemma {:induction false} DepositsAreLogged(p: Params, start: nat, ops: seq<Op>)
    ensures Total(Run(p, start, ops, SLOTS).1, true) == Total(ops, true)
    decreases |ops|
  {
    if ops != [] {
      var prev, op := ops[..|ops| - 1], ops[|ops| - 1];
      DepositsAreLogged(p, start, prev);
      hide Total, Advanced;
      TotalSnoc(Run(p, start, prev, SLOTS).1, op);
      TotalSnoc(prev, op);
      assert prev + [op] == ops;
    }
  }
}
