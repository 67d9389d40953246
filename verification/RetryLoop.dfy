/** `Client::execute`: one request, its retries, and what they cost the budget. */
module RetryLoop {
  import opened Prelude
  import opened RetryBudget

  datatype Body = Bytes(data: seq<byte>) | Stream(id: nat)

  /** An outcome of one attempt, success or error, as an opaque tag. */
  type Reply = nat

  /** The URL and method a policy looks at, as an opaque tag. */
  type Target = nat

  /** `representable` says whether the URL converts to an `http::Uri`. */
  datatype Policy = Policy(
    scope: Option<Target -> bool>,
    classify: Option<(Target, Reply) -> bool>,
    representable: Target -> bool,
    maxRetries: nat)
  {
    predicate Retryable(target: Target, reply: Reply) {
      && (scope.Some? ==> scope.value(target))
      && classify.Some?
      && representable(target)
      && classify.value(target, reply)
    }
  }

  /** A stream cannot be replayed; bytes, and no body at all, can. */
  predicate Replayable(body: Option<Body>) {
    body.Some? ==> body.value.Bytes?
  }

  function TryClone(body: Body): Option<Body> {
    if body.Bytes? then Some(body) else None
  }

  /** The first `n` withdrawals of a call, at the given clock readings. */
  function Withdrawals(clock: nat -> nat, n: nat): (w: seq<Op>)
    ensures |w| == n
  {
    seq(n, i requires 0 <= i < n => Op.Withdraw(clock(i)))
  }

  lemma WithdrawalTimes(clock: nat -> nat, n: nat)
    ensures forall i :: 0 <= i < n ==> Withdrawals(clock, n)[i] == Op.Withdraw(clock(i))
  {
  }

  /** A budget as a call finds it: its parameters and every earlier call on it. */
  datatype Ledger = Ledger(p: Params, start: nat, ops: seq<Op>)

  /** What the `i`-th withdrawal of a call is answered; a client without a
      budget grants everything. */
  predicate Granted(ledger: Option<Ledger>, clock: nat -> nat, i: nat) {
    match ledger
    case None => true
    case Some(l) =>
      Done(l.p, Run(l.p, l.start, l.ops + Withdrawals(clock, i), SLOTS).0, Op.Withdraw(clock(i)), SLOTS).1
  }

  /** One call of a client: everything its course depends on. */
  datatype Call = Call(
    policy: Policy, target: Target, body: Option<Body>, replies: nat -> Reply, clock: nat -> nat)

  /** Attempt `i` may be followed by another, if the budget grants it. */
  predicate WantsRetry(c: Call, i: nat) {
    i < c.policy.maxRetries && Replayable(c.body) && c.policy.Retryable(c.target, c.replies(i))
  }

  predicate Retries(c: Call, ledger: Option<Ledger>, i: nat) {
    WantsRetry(c, i) && Granted(ledger, c.clock, i)
  }

  /** What a call does, whatever path the code takes: the last attempt is the
      first after which no retry is wanted or none is granted, and the budget
      is asked once for every attempt that wants a retry. */
  ghost predicate Executed(c: Call, ledger: Option<Ledger>, attempts: nat, asked: nat) {
    && attempts >= 1
    && (forall i :: 0 <= i < attempts - 1 ==> Retries(c, ledger, i))
    && !Retries(c, ledger, attempts - 1)
    && asked == if WantsRetry(c, attempts - 1) then attempts else attempts - 1
  }

  /** So a call's course is determined, and the shortcut for policies without
      retries can only do what the loop would do. */
  lemma CourseIsDetermined(c: Call, ledger: Option<Ledger>, n: nat, a: nat, m: nat, b: nat)
    requires Executed(c, ledger, n, a) && Executed(c, ledger, m, b)
    ensures n == m && a == b
  {
  }

  /** At most one attempt more than the policy's retries, exactly one for a
      stream or outside the policy's scope, and one question to the budget for
      every attempt but the last, where there may be a refused one more. */
  lemma AttemptsAreBounded(c: Call, ledger: Option<Ledger>, n: nat, asked: nat)
    requires Executed(c, ledger, n, asked)
    ensures 1 <= n <= c.policy.maxRetries + 1
    ensures !Replayable(c.body) || (c.policy.scope.Some? && !c.policy.scope.value(c.target)) ==> n == 1 && asked == 0
    ensures n - 1 <= asked <= n
    ensures n == c.policy.maxRetries + 1 ==> asked == n - 1
    ensures asked == n ==> !Granted(ledger, c.clock, n - 1)
  {
    if n >= 2 {
      assert Retries(c, ledger, n - 2);
    }
  }

  /** Everything but the budget that a retry needs: a body that is not a stream,
      a target in scope that can be represented, and a classifier that accepts
      the reply. */
  ghost predicate Accepts(c: Call, i: nat) {
    && !(c.body.Some? && c.body.value.Stream?)
    && (c.policy.scope.None? || c.policy.scope.value(c.target))
    && c.policy.representable(c.target)
    && c.policy.classify.Some?
    && c.policy.classify.value(c.target, c.replies(i))
  }

  /** The answer of a budget to the question after `i` granted ones. */
  ghost predicate BudgetGrants(l: Ledger, clock: nat -> nat, i: nat) {
    Done(l.p, Run(l.p, l.start, l.ops + Withdrawals(clock, i), SLOTS).0, Op.Withdraw(clock(i)), SLOTS).1
  }

  /** All that a retry needs: that, one of the retries left, and a grant of the
      budget, if there is one. */
  ghost predicate Justified(c: Call, ledger: Option<Ledger>, i: nat) {
    Accepts(c, i) && i < c.policy.maxRetries && (ledger.Some? ==> BudgetGrants(ledger.value, c.clock, i))
  }

  /** Every retry is justified, and none is forgone: an attempt is followed by
      another exactly when one is. */
  lemma RetriesAreJustified(c: Call, ledger: Option<Ledger>, n: nat, asked: nat)
    requires Executed(c, ledger, n, asked)
    ensures forall i :: 0 <= i < n - 1 ==> Justified(c, ledger, i)
    ensures !Justified(c, ledger, n - 1)
  {
    hide Justified, Retries;
    RetryIsJustified(c, ledger, n - 1);
    forall i | 0 <= i < n - 1 ensures Justified(c, ledger, i) {
      assert Retries(c, ledger, i);
      RetryIsJustified(c, ledger, i);
    }
  }

  lemma RetryIsJustified(c: Call, ledger: Option<Ledger>, i: nat)
    ensures Retries(c, ledger, i) <==> Justified(c, ledger, i)
  {
    hide Done, Run;
  }

  lemma {:induction false} TotalWithdrawals(clock: nat -> nat, n: nat)
    ensures Total(Withdrawals(clock, n), false) == n && Total(Withdrawals(clock, n), true) == 0
  {
    if n > 0 {
      TotalWithdrawals(clock, n - 1);
      assert Withdrawals(clock, n) == Withdrawals(clock, n - 1) + [Op.Withdraw(clock(n - 1))];
      TotalConcat(Withdrawals(clock, n - 1), [Op.Withdraw(clock(n - 1))], false);
      TotalConcat(Withdrawals(clock, n - 1), [Op.Withdraw(clock(n - 1))], true);
      TotalOne(Op.Withdraw(clock(n - 1)));
    }
  }

  /** What one call adds to the log of granted operations. */
  lemma CallTotals(log: seq<Op>, clock: nat -> nat, n: nat, end: nat, deposits: bool)
    ensures Total(log + Withdrawals(clock, n) + [Op.Deposit(end)], deposits)
            == Total(log, deposits) + if deposits then 1 else n
  {
    TotalConcat(log, Withdrawals(clock, n), deposits);
    TotalConcat(log + Withdrawals(clock, n), [Op.Deposit(end)], deposits);
    TotalWithdrawals(clock, n);
    TotalOne(Op.Deposit(end));
  }

  /** The body for the next attempt, whether that attempt may be retried, and
      what is left in hand: a body that cannot be cloned, or that no retry will
      need, is given away. */
  method BodyToSend(body: Option<Body>, remaining: nat)
    returns (toSend: Option<Body>, canRetry: bool, held: Option<Body>)
    ensures toSend == body
    ensures canRetry <==> remaining > 0 && Replayable(body)
    ensures held == if canRetry then body else None
  {
    toSend, canRetry, held := None, false, body;
    if remaining > 0 {
      match body {
        case Some(b) =>
          var cloned := TryClone(b);
          if cloned.Some? {
            toSend, canRetry := cloned, true;
          } else {
            toSend, held := held, None;
          }
        case None =>
          canRetry := true;
      }
    } else {
      toSend, held := held, None;
    }
  }

  class Client {
    const policy: Policy
    const budget: Budget?
    ghost var requests: nat    // calls finished
    ghost var attempts: nat    // attempts of all of them

    ghost function LedgerNow(): Option<Ledger>
      reads this, budget
    {
      if budget == null then None else Some(Ledger(budget.p, budget.start, budget.ops))
    }

    /** Over all calls, attempts are requests plus granted withdrawals, and
        every request made exactly one deposit. */
    ghost predicate Valid()
      reads this, budget, if budget == null then {} else {budget.buckets}
    {
      budget != null ==>
        && budget.Valid()
        && attempts == requests + Total(budget.Log(), false)
        && requests == Total(budget.Log(), true)
    }

    constructor (policy: Policy, budget: Budget?)
      requires budget != null ==> budget.Valid() && budget.ops == []
      ensures Valid() && this.policy == policy && this.budget == budget
    {
      this.policy := policy;
      this.budget := budget;
      requests := 0;
      attempts := 0;
    }

    /** The budget's state `asked` withdrawals into a call, `granted` of them granted. */
    ghost predicate Spent(was: Option<Ledger>, log: seq<Op>, clock: nat -> nat, asked: nat, granted: nat)
      reads this, budget, if budget == null then {} else {budget.buckets}
    {
      && (budget == null <==> was.None?)
      && (budget != null ==>
            && budget.Valid() && budget.p == was.value.p && budget.start == was.value.start
            && budget.ops == was.value.ops + Withdrawals(clock, asked)
            && budget.Log() == log + Withdrawals(clock, granted))
    }

    method CanWithdraw(clock: nat -> nat, i: nat, ghost was: Option<Ledger>, ghost log: seq<Op>) returns (ok: bool)
      requires Spent(was, log, clock, i, i)
      modifies budget, if budget == null then {} else {budget.buckets}
      ensures budget != null ==> budget.buckets == old(budget.buckets)
      ensures ok <==> Granted(was, clock, i)
      ensures Spent(was, log, clock, i + 1, if ok then i + 1 else i)
    {
      ok := true;
      if budget != null {
        assert Withdrawals(clock, i + 1) == Withdrawals(clock, i) + [Op.Withdraw(clock(i))];
        ok := budget.Withdraw(clock(i));
      }
    }

    /** `replies(i)` is the outcome of attempt `i`, `clock(i)` the reading at
        the `i`-th withdrawal and `end` the one at the deposit, which is made
        on every way out.  `sent` lists the bodies handed to the attempts. */
    method Execute(target: Target, body: Option<Body>, replies: nat -> Reply, clock: nat -> nat, end: nat)
      returns (reply: Reply, sent: seq<Option<Body>>, ghost asked: nat)
      requires Valid()
      modifies this`requests, this`attempts, budget, if budget == null then {} else {budget.buckets}
      ensures Valid()
      ensures Executed(Call(policy, target, body, replies, clock), old(LedgerNow()), |sent|, asked)
      ensures reply == replies(|sent| - 1)
      ensures forall i :: 0 <= i < |sent| ==> sent[i] == body
      ensures requests == old(requests) + 1 && attempts == old(attempts) + |sent|
      ensures budget != null ==>
        && budget.buckets == old(budget.buckets)
        && budget.ops == old(budget.ops) + Withdrawals(clock, asked) + [Op.Deposit(end)]
        && budget.Log() == old(budget.Log()) + Withdrawals(clock, |sent| - 1) + [Op.Deposit(end)]
    {
      hide Run, Total, Executed;
      reply, sent, asked := Attempts(Call(policy, target, body, replies, clock), LedgerNow());
      if budget != null {
        budget.Deposit(end);
        CallTotals(old(budget.Log()), clock, |sent| - 1, end, true);
        CallTotals(old(budget.Log()), clock, |sent| - 1, end, false);
      }
      requests := requests + 1;
      attempts := attempts + |sent|;
    }

    /** After attempt `i`: whether there is another, which may cost a withdrawal. */
    method AskForRetry(c: Call, i: nat, canRetry: bool, ghost ledger: Option<Ledger>, ghost log: seq<Op>)
      returns (again: bool)
      requires canRetry <==> i < c.policy.maxRetries && Replayable(c.body)
      requires Spent(ledger, log, c.clock, i, i)
      modifies budget, if budget == null then {} else {budget.buckets}
      ensures budget != null ==> budget.buckets == old(budget.buckets)
      ensures again <==> Retries(c, ledger, i)
      ensures Spent(ledger, log, c.clock, if WantsRetry(c, i) then i + 1 else i, if again then i + 1 else i)
    {
      again := canRetry && c.policy.Retryable(c.target, c.replies(i));
      if again {
        again := CanWithdraw(c.clock, i, ledger, log);
      }
    }

    /** Everything before the deposit. */
    method Attempts(c: Call, ghost ledger: Option<Ledger>)
      returns (reply: Reply, sent: seq<Option<Body>>, ghost asked: nat)
      requires budget != null ==> budget.Valid()
      requires ledger == LedgerNow()
      modifies budget, if budget == null then {} else {budget.buckets}
      ensures Executed(c, ledger, |sent|, asked)
      ensures reply == c.replies(|sent| - 1)
      ensures forall i :: 0 <= i < |sent| ==> sent[i] == c.body
      ensures budget != null ==> budget.buckets == old(budget.buckets)
      ensures Spent(ledger, if budget == null then [] else old(budget.Log()), c.clock, asked, |sent| - 1)
    {
      if c.policy.maxRetries == 0 {
        reply, sent, asked := c.replies(0), [c.body], 0;
      } else {
        reply, sent, asked := Loop(c, ledger, if budget == null then [] else budget.Log());
      }
    }

    method Loop(c: Call, ghost ledger: Option<Ledger>, ghost log: seq<Op>)
      returns (reply: Reply, sent: seq<Option<Body>>, ghost asked: nat)
      requires Spent(ledger, log, c.clock, 0, 0)
      modifies budget, if budget == null then {} else {budget.buckets}
      ensures Executed(c, ledger, |sent|, asked)
      ensures reply == c.replies(|sent| - 1)
      ensures forall i :: 0 <= i < |sent| ==> sent[i] == c.body
      ensures budget != null ==> budget.buckets == old(budget.buckets)
      ensures Spent(ledger, log, c.clock, asked, |sent| - 1)
    {
      hide Granted, Spent;
      asked := 0;
      var held, remaining: nat, again := c.body, c.policy.maxRetries, true;
      sent, reply := [], 0;
      while again
        invariant again ==> remaining + |sent| == c.policy.maxRetries && held == c.body && asked == |sent|
        invariant again ==> Spent(ledger, log, c.clock, asked, |sent|)
        invariant forall i :: 0 <= i < |sent| ==> sent[i] == c.body
        invariant forall i :: 0 <= i < (if again then |sent| else |sent| - 1) ==> Retries(c, ledger, i)
        invariant !again ==> Executed(c, ledger, |sent|, asked) && reply == c.replies(|sent| - 1)
        invariant !again ==> Spent(ledger, log, c.clock, asked, |sent| - 1)
        invariant budget != null ==> budget.buckets == old(budget.buckets)
        decreases again, remaining
      {
        var i := |sent|;
        var toSend, canRetry;
        toSend, canRetry, held := BodyToSend(held, remaining);
        reply := c.replies(i);
        sent := sent + [toSend];
        again := AskForRetry(c, i, canRetry, ledger, log);
        asked := if WantsRetry(c, i) then i + 1 else i;
        remaining := if again then remaining - 1 else remaining;
      }
    }
  }
}
