/**
 * The sliding-window retry budget: a ring of ten slot balances plus the
 * balance of the current slot, advanced by a clock that is read at each call.
 * `Ring` and the functions on it are the value the object holds; `Budget` is
 * the object, working in place on its array.
 */
module RetryBudget {
  import opened Prelude

  const SLOTS: nat := 10
  const ISIZE_MAX: int := 0x7FFF_FFFF_FFFF_FFFF
  const ISIZE_MIN: int := -0x8000_0000_0000_0000

  /** Times are in the clock's ticks; `slot` is the duration of one slot. */
  datatype Params = Params(depositAmount: nat, withdrawAmount: nat, reserve: nat, slot: nat) {
    predicate Valid() {
      0 < slot && 1 <= withdrawAmount
    }
  }

  datatype Ring = Ring(buckets: seq<int>, writer: int, genIndex: nat, genTime: nat) {
    predicate Valid() {
      |buckets| == SLOTS && genIndex < SLOTS
    }
  }

  datatype Op = Deposit(now: nat) | Withdraw(now: nat)

  predicate InRange(x: int) {
    ISIZE_MIN <= x <= ISIZE_MAX
  }

  /** `isize::saturating_add`. */
  function SatAdd(a: int, b: int): int {
    if a + b > ISIZE_MAX then ISIZE_MAX else if a + b < ISIZE_MIN then ISIZE_MIN else a + b
  }

  function SatFold(acc: int, xs: seq<int>): int
    decreases |xs|
  {
    if xs == [] then acc else SatFold(SatAdd(acc, xs[0]), xs[1..])
  }

  /** Running balance: writer, all slots, reserve, added in the code's order. */
  function Balance(p: Params, r: Ring): int {
    SatAdd(SatAdd(r.writer, SatFold(0, r.buckets)), p.reserve)
  }

  /** `Instant::duration_since`, which is zero for a clock that ran backwards. */
  function Elapsed(r: Ring, now: nat): nat {
    if now < r.genTime then 0 else now - r.genTime
  }

  /** The clearing loop, at most `fuel` rounds of it. */
  function Cleared(b: seq<int>, idx: nat, remaining: nat, slot: nat, fuel: nat): (seq<int>, nat)
    requires |b| == SLOTS && idx < SLOTS
    decreases fuel
  {
    if fuel == 0 || remaining <= slot then (b, idx)
    else Cleared(b[idx := 0], (idx + 1) % SLOTS, remaining - slot, slot, fuel - 1)
  }

  function Advanced(p: Params, r: Ring, now: nat, fuel: nat): (t: Ring)
    requires r.Valid()
    ensures t.Valid()
  {
    var elapsed := Elapsed(r, now);
    if elapsed < p.slot then r
    else
      ClearedValid(r.buckets[r.genIndex := r.writer], (r.genIndex + 1) % SLOTS, elapsed, p.slot, fuel);
      var (b, idx) := Cleared(r.buckets[r.genIndex := r.writer], (r.genIndex + 1) % SLOTS, elapsed, p.slot, fuel);
      Ring(b, 0, idx, now)
  }

  lemma {:induction false} ClearedValid(b: seq<int>, idx: nat, remaining: nat, slot: nat, fuel: nat)
    requires |b| == SLOTS && idx < SLOTS
    ensures |Cleared(b, idx, remaining, slot, fuel).0| == SLOTS
    ensures Cleared(b, idx, remaining, slot, fuel).1 < SLOTS
    decreases fuel
  {
    if fuel != 0 && remaining > slot {
      ClearedValid(b[idx := 0], (idx + 1) % SLOTS, remaining - slot, slot, fuel - 1);
    }
  }

  /** One call on the budget, and whether it was granted (a deposit always is). */
  function Done(p: Params, r: Ring, op: Op, fuel: nat): (t: (Ring, bool))
    requires r.Valid()
    ensures t.0.Valid()
  {
    var a := Advanced(p, r, op.now, fuel);
    match op
    case Deposit(_) => (a.(writer := SatAdd(a.writer, p.depositAmount)), true)
    case Withdraw(_) =>
      if Balance(p, a) >= p.withdrawAmount
      then (a.(writer := SatAdd(a.writer, -(p.withdrawAmount as int))), true)
      else (a, false)
  }

  function Fresh(start: nat): (r: Ring)
    ensures r.Valid()
  {
    Ring(seq(SLOTS, _ => 0), 0, 0, start)
  }

  /** The ring and the log of granted operations after a list of calls. */
  function Run(p: Params, start: nat, ops: seq<Op>, fuel: nat): (t: (Ring, seq<Op>))
    ensures t.0.Valid()
  {
    if ops == [] then (Fresh(start), [])
    else
      var (r, log) := Run(p, start, ops[..|ops| - 1], fuel);
      var op := ops[|ops| - 1];
      var (next, granted) := Done(p, r, op, fuel);
      (next, if granted then log + [op] else log)
  }

  lemma RunSnoc(p: Params, start: nat, ops: seq<Op>, op: Op, fuel: nat)
    ensures var (r, log) := Run(p, start, ops, fuel);
            Run(p, start, ops + [op], fuel)
              == (Done(p, r, op, fuel).0, if Done(p, r, op, fuel).1 then log + [op] else log)
  {
    assert (ops + [op])[..|ops|] == ops;
  }

  // ----- The object -------------------------------------------------------

  class Budget {
    const p: Params
    const start: nat
    var buckets: array<int>
    var writer: int
    var genIndex: nat
    var genTime: nat
    ghost var ops: seq<Op>    // every call so far

    function View(): Ring
      reads this, buckets
    {
      Ring(buckets[..], writer, genIndex, genTime)
    }

    ghost function Log(): seq<Op>
      reads this
    {
      Run(p, start, ops, SLOTS).1
    }

    ghost predicate Valid()
      reads this, buckets
    {
      p.Valid() && View() == Run(p, start, ops, SLOTS).0
    }

    constructor (p: Params, now: nat)
      requires p.Valid()
      ensures Valid() && fresh(buckets)
      ensures this.p == p && start == now && ops == []
    {
      this.p := p;
      start := now;
      buckets := new int[SLOTS](_ => 0);
      writer := 0;
      genIndex := 0;
      genTime := now;
      ops := [];
      new;
      assert buckets[..] == Fresh(now).buckets;
    }

    method Sum() returns (sum: int)
      requires buckets.Length == SLOTS
      ensures sum == Balance(p, View())
    {
      var windowed := 0;
      var i := 0;
      while i < buckets.Length
        invariant 0 <= i <= buckets.Length
        invariant SatFold(windowed, buckets[i..]) == SatFold(0, buckets[..])
      {
        assert buckets[i..][1..] == buckets[i + 1..];
        windowed := SatAdd(windowed, buckets[i]);
        i := i + 1;
      }
      sum := SatAdd(SatAdd(writer, windowed), p.reserve);
    }

    method Advance(now: nat)
      requires View().Valid()
      modifies this`writer, this`genIndex, this`genTime, buckets
      ensures View() == Advanced(p, old(View()), now, SLOTS)
    {
      var elapsed := if now < genTime then 0 else now - genTime;
      if elapsed < p.slot {
        return;
      }
      buckets[genIndex] := writer;
      writer := 0;
      assert buckets[..] == old(buckets[..])[genIndex := old(writer)];
      var remaining: nat := elapsed;
      var idx: nat := (genIndex + 1) % SLOTS;
      ghost var goal := Cleared(buckets[..], idx, remaining, p.slot, SLOTS);
      for n := 0 to SLOTS
        invariant idx < SLOTS && buckets.Length == SLOTS && writer == 0
        invariant Cleared(buckets[..], idx, remaining, p.slot, SLOTS - n) == goal
      {
        if remaining <= p.slot {
          break;
        }
        ghost var before := buckets[..];
        buckets[idx] := 0;
        assert buckets[..] == before[idx := 0];
        remaining := remaining - p.slot;
        idx := (idx + 1) % SLOTS;
      }
      genIndex := idx;
      genTime := now;
    }

    method Deposit(now: nat)
      requires Valid()
      modifies this, buckets
      ensures Valid() && buckets == old(buckets)
      ensures ops == old(ops) + [Op.Deposit(now)] && Log() == old(Log()) + [Op.Deposit(now)]
    {
      hide Run, Advanced;
      RunSnoc(p, start, ops, Op.Deposit(now), SLOTS);
      Advance(now);
      writer := SatAdd(writer, p.depositAmount);
      ops := ops + [Op.Deposit(now)];
    }

    method Withdraw(now: nat) returns (ok: bool)
      requires Valid()
      modifies this, buckets
      ensures Valid() && buckets == old(buckets)
      ensures ops == old(ops) + [Op.Withdraw(now)]
      ensures ok <==> Done(p, old(View()), Op.Withdraw(now), SLOTS).1
      ensures Log() == if ok then old(Log()) + [Op.Withdraw(now)] else old(Log())
    {
      hide Run, Advanced, Balance;
      RunSnoc(p, start, ops, Op.Withdraw(now), SLOTS);
      Advance(now);
      var sum := Sum();
      ok := sum >= p.withdrawAmount;
      if ok {
        writer := SatAdd(writer, -(p.withdrawAmount as int));
      }
      ops := ops + [Op.Withdraw(now)];
    }
  }

  // ----- The ring is a queue ----------------------------------------------

  /** `s` read round the ring from position `g`. */
  function Rotated<T>(s: seq<T>, g: nat): seq<T>
    requires g <= |s|
  {
    s[g..] + s[..g]
  }

  /** The slot balances, oldest first. */
  function Queue(r: Ring): (q: seq<int>)
    requires r.Valid()
    ensures |q| == SLOTS
  {
    Rotated(r.buckets, r.genIndex)
  }

  function Zeros(n: nat): seq<int> {
    seq(n, _ => 0)
  }

  /** Slots begun since the first one, that is ceil(elapsed / slot) - 1. */
  function Skipped(elapsed: nat, slot: nat): nat
    requires 0 < slot
  {
    if elapsed <= slot then 0 else 1 + Skipped(elapsed - slot, slot)
  }

  lemma {:induction false} SkippedIsCeiling(elapsed: nat, slot: nat)
    requires 0 < slot
    ensures elapsed <= (Skipped(elapsed, slot) + 1) * slot
    ensures elapsed > 0 ==> Skipped(elapsed, slot) * slot < elapsed
  {
    if elapsed > slot {
      SkippedIsCeiling(elapsed - slot, slot);
      var k := Skipped(elapsed - slot, slot);
      assert (k + 1) * slot == k * slot + slot;
      assert (k + 2) * slot == (k + 1) * slot + slot;
    }
  }

  lemma PushRotates(s: seq<int>, g: nat, x: int)
    requires |s| == SLOTS && g < SLOTS
    ensures Rotated(s[g := x], (g + 1) % SLOTS) == Rotated(s, g)[1..] + [x]
  {
  }

  lemma PushThenZeros(q: seq<int>, x: int, k: nat)
    requires q != [] && k >= 1
    ensures (q[1..] + [x] + Zeros(k - 1))[k - 1..] == (q + ([x] + Zeros(k - 1)))[k..]
  {
    assert q[1..] + [x] + Zeros(k - 1) == (q + ([x] + Zeros(k - 1)))[1..];
  }

  lemma ModStep(i: nat, k: nat)
    requires i < SLOTS && k >= 1
    ensures ((i + 1) % SLOTS + (k - 1)) % SLOTS == (i + k) % SLOTS
  {
  }

  lemma {:induction false} ClearingMovesIndex(b: seq<int>, idx: nat, remaining: nat, slot: nat, fuel: nat)
    requires |b| == SLOTS && idx < SLOTS && 0 < slot
    ensures Cleared(b, idx, remaining, slot, fuel).1 == (idx + Min(fuel, Skipped(remaining, slot))) % SLOTS
    decreases fuel
  {
    if fuel != 0 && remaining > slot {
      ClearingMovesIndex(b[idx := 0], (idx + 1) % SLOTS, remaining - slot, slot, fuel - 1);
      ModStep(idx, Min(fuel, Skipped(remaining, slot)));
    }
  }

  lemma {:induction false} ClearingPushesZeros(b: seq<int>, idx: nat, remaining: nat, slot: nat, fuel: nat)
    requires |b| == SLOTS && idx < SLOTS && 0 < slot
    ensures var k := Min(fuel, Skipped(remaining, slot));
            var (c, end) := Cleared(b, idx, remaining, slot, fuel);
            && |c| == SLOTS && end < SLOTS
            && Rotated(c, end) == (Rotated(b, idx) + Zeros(k))[k..]
    decreases fuel
  {
    if fuel == 0 || remaining <= slot {
      assert Rotated(b, idx) + Zeros(0) == Rotated(b, idx);
    } else {
      var k := Min(fuel, Skipped(remaining, slot));
      ClearingPushesZeros(b[idx := 0], (idx + 1) % SLOTS, remaining - slot, slot, fuel - 1);
      PushRotates(b, idx, 0);
      PushThenZeros(Rotated(b, idx), 0, k);
      assert [0] + Zeros(k - 1) == Zeros(k);
    }
  }

  /** Advancing past a slot boundary shifts the writer's balance into the queue
      and then one zero for every further slot begun, as far as `fuel` allows. */
  lemma AdvanceShiftsQueue(p: Params, r: Ring, now: nat, fuel: nat)
    requires p.Valid() && r.Valid() && Elapsed(r, now) >= p.slot
    ensures var k := Min(fuel, Skipped(Elapsed(r, now), p.slot));
            var t := Advanced(p, r, now, fuel);
            && Queue(t) == (Queue(r) + [r.writer] + Zeros(k))[k + 1..]
            && t.writer == 0 && t.genTime == now
  {
    var k := Min(fuel, Skipped(Elapsed(r, now), p.slot));
    var b := r.buckets[r.genIndex := r.writer];
    ClearingPushesZeros(b, (r.genIndex + 1) % SLOTS, Elapsed(r, now), p.slot, fuel);
    PushRotates(r.buckets, r.genIndex, r.writer);
    PushThenZeros(Queue(r), r.writer, k + 1);
    assert Queue(r) + ([r.writer] + Zeros(k)) == Queue(r) + [r.writer] + Zeros(k);
  }

  /** Less than a slot after the generation began, or before it began by a clock
      that ran backwards, nothing moves; from then on a new generation begins. */
  lemma GenerationLastsASlot(p: Params, r: Ring, now: nat, fuel: nat)
    requires p.Valid() && r.Valid()
    ensures now < r.genTime + p.slot ==> Advanced(p, r, now, fuel) == r
    ensures now >= r.genTime + p.slot ==>
              Advanced(p, r, now, fuel).genTime == now && Advanced(p, r, now, fuel).writer == 0
  {
  }

  lemma AdvanceMovesIndex(p: Params, r: Ring, now: nat, fuel: nat)
    requires p.Valid() && r.Valid() && Elapsed(r, now) >= p.slot
    ensures var k := Min(fuel, Skipped(Elapsed(r, now), p.slot));
            Advanced(p, r, now, fuel).genIndex == (r.genIndex + 1 + k) % SLOTS
  {
    var k := Min(fuel, Skipped(Elapsed(r, now), p.slot));
    var b := r.buckets[r.genIndex := r.writer];
    ClearingMovesIndex(b, (r.genIndex + 1) % SLOTS, Elapsed(r, now), p.slot, fuel);
    ModStep(r.genIndex, k + 1);
  }

  // ----- Balances and clamping --------------------------------------------

  function Sum(xs: seq<int>): int {
    if xs == [] then 0 else xs[0] + Sum(xs[1..])
  }

  lemma {:induction false} SumConcat(a: seq<int>, b: seq<int>)
    ensures Sum(a + b) == Sum(a) + Sum(b)
  {
    if a == [] {
      assert a + b == b;
    } else {
      assert (a + b)[1..] == a[1..] + b;
      SumConcat(a[1..], b);
    }
  }

  lemma SumRotated(s: seq<int>, g: nat)
    requires g <= |s|
    ensures Sum(Rotated(s, g)) == Sum(s)
  {
    hide Sum;
    SumConcat(s[g..], s[..g]);
    SumConcat(s[..g], s[g..]);
    assert s[..g] + s[g..] == s;
  }

  /** The two ends of the machine range, where additions are clamped. */
  datatype Side = Bottom | Top

  function Opposite(side: Side): Side {
    match side case Bottom => Top case Top => Bottom
  }

  /** `x` is not beyond that end, so it is not clamped there. */
  predicate Inside(side: Side, x: int) {
    match side case Bottom => ISIZE_MIN <= x case Top => x <= ISIZE_MAX
  }

  /** `x` is `y`, or on that side of it. */
  predicate Toward(side: Side, x: int, y: int) {
    match side case Bottom => x <= y case Top => x >= y
  }

  /** A sum that is not clamped at one end can only err toward that end. */
  lemma ClampErrs(side: Side, a: int, b: int, exact: int)
    requires Inside(side, a + b) && Toward(side, a, exact)
    ensures Toward(side, SatAdd(a, b), exact + b)
  {
  }

  /** No addition in the fold is clamped at that end. */
  ghost predicate FoldInside(side: Side, acc: int, xs: seq<int>)
    decreases |xs|
  {
    xs == [] || (Inside(side, acc + xs[0]) && FoldInside(side, SatAdd(acc, xs[0]), xs[1..]))
  }

  lemma {:induction false} FoldErrs(side: Side, acc: int, xs: seq<int>, exact: int)
    requires FoldInside(side, acc, xs) && Toward(side, acc, exact)
    ensures Toward(side, SatFold(acc, xs), exact + Sum(xs))
    decreases |xs|
  {
    if xs != [] {
      ClampErrs(side, acc, xs[0], exact);
      FoldErrs(side, SatAdd(acc, xs[0]), xs[1..], exact + xs[0]);
    }
  }

  /** No addition made for `op` on the advanced ring `a` is clamped at that end. */
  ghost predicate AdditionsInside(side: Side, p: Params, a: Ring, op: Op) {
    match op
    case Deposit(_) => Inside(side, a.writer + p.depositAmount)
    case Withdraw(_) =>
      && FoldInside(side, 0, a.buckets)
      && Inside(side, a.writer + SatFold(0, a.buckets))
      && Inside(side, SatAdd(a.writer, SatFold(0, a.buckets)) + p.reserve)
      && (Balance(p, a) >= p.withdrawAmount ==> Inside(side, a.writer - p.withdrawAmount))
  }

  ghost predicate Unclamped(side: Side, p: Params, r: Ring, op: Op, fuel: nat)
    requires r.Valid()
  {
    AdditionsInside(side, p, Advanced(p, r, op.now, fuel), op)
  }

  ghost predicate RunUnclamped(side: Side, p: Params, start: nat, ops: seq<Op>, fuel: nat) {
    ops == [] || (RunUnclamped(side, p, start, ops[..|ops| - 1], fuel)
                  && Unclamped(side, p, Run(p, start, ops[..|ops| - 1], fuel).0, ops[|ops| - 1], fuel))
  }

  ghost predicate NeverClamps(p: Params, start: nat, ops: seq<Op>, fuel: nat) {
    RunUnclamped(Bottom, p, start, ops, fuel) && RunUnclamped(Top, p, start, ops, fuel)
  }

  lemma BalanceErrs(side: Side, p: Params, r: Ring, now: nat, fuel: nat)
    requires r.Valid() && Unclamped(side, p, r, Op.Withdraw(now), fuel)
    ensures var a := Advanced(p, r, now, fuel);
            Toward(side, Balance(p, a), Sum(Queue(a)) + a.writer + p.reserve)
  {
    var a := Advanced(p, r, now, fuel);
    FoldErrs(side, 0, a.buckets, 0);
    SumRotated(a.buckets, a.genIndex);
    ClampErrs(side, SatFold(0, a.buckets), a.writer, Sum(a.buckets));
    ClampErrs(side, SatAdd(a.writer, SatFold(0, a.buckets)), p.reserve, a.writer + Sum(a.buckets));
  }

  // ----- Generations ------------------------------------------------------

  /** What a granted operation is worth to the balance. */
  function Worth(p: Params, op: Op): int {
    match op case Deposit(_) => p.depositAmount case Withdraw(_) => -(p.withdrawAmount as int)
  }

  function Net(p: Params, es: seq<Op>): int {
    if es == [] then 0 else Worth(p, es[0]) + Net(p, es[1..])
  }

  lemma {:induction false} NetConcat(p: Params, a: seq<Op>, b: seq<Op>)
    ensures Net(p, a + b) == Net(p, a) + Net(p, b)
  {
    if a == [] {
      assert a + b == b;
    } else {
      assert (a + b)[1..] == a[1..] + b;
      NetConcat(p, a[1..], b);
    }
  }

  /** What the slot balances stand for: the granted operations of the ten
      committed generations and of the current one, and those forgotten. */
  datatype History = History(forgotten: seq<Op>, gens: seq<seq<Op>>)

  function Empties(n: nat): seq<seq<Op>> {
    seq(n, _ => [])
  }

  function Balances(p: Params, gens: seq<seq<Op>>): seq<int> {
    seq(|gens|, i requires 0 <= i < |gens| => Net(p, gens[i]))
  }

  function Shift(h: History, n: nat): History
    requires n <= |h.gens|
  {
    History(h.forgotten + Flatten(h.gens[..n]), h.gens[n..] + Empties(n))
  }

  function AdvancedHistory(p: Params, r: Ring, h: History, now: nat): (t: History)
    requires p.Valid() && |h.gens| == SLOTS + 1
    ensures |t.gens| == SLOTS + 1
  {
    if Elapsed(r, now) < p.slot then h
    else Shift(h, Min(SLOTS, Skipped(Elapsed(r, now), p.slot)) + 1)
  }

  function Recorded(h: History, op: Op): (t: History)
    requires |h.gens| == SLOTS + 1
    ensures |t.gens| == SLOTS + 1
  {
    h.(gens := h.gens[SLOTS := h.gens[SLOTS] + [op]])
  }

  function StepHistory(p: Params, r: Ring, h: History, op: Op): (t: History)
    requires p.Valid() && r.Valid() && |h.gens| == SLOTS + 1
    ensures |t.gens| == SLOTS + 1
  {
    var a := AdvancedHistory(p, r, h, op.now);
    if Done(p, r, op, SLOTS).1 then Recorded(a, op) else a
  }

  function HistoryOf(p: Params, start: nat, ops: seq<Op>): (h: History)
    requires p.Valid()
    ensures |h.gens| == SLOTS + 1
  {
    if ops == [] then History([], Empties(SLOTS + 1))
    else
      var prev, op := ops[..|ops| - 1], ops[|ops| - 1];
      StepHistory(p, Run(p, start, prev, SLOTS).0, HistoryOf(p, start, prev), op)
  }

  lemma EmptiesFlatten(n: nat)
    ensures Flatten(Empties(n)) == []
  {
    if n > 0 {
      assert Empties(n)[1..] == Empties(n - 1);
      EmptiesFlatten(n - 1);
    }
  }

  lemma ShiftKeepsLog(h: History, n: nat)
    requires n <= |h.gens|
    ensures Shift(h, n).forgotten + Flatten(Shift(h, n).gens) == h.forgotten + Flatten(h.gens)
  {
    assert h.gens[..n] + h.gens[n..] == h.gens;
    FlattenConcat(h.gens[..n], h.gens[n..]);
    FlattenConcat(h.gens[n..], Empties(n));
    EmptiesFlatten(n);
  }

  lemma RecordedLog(h: History, op: Op)
    requires |h.gens| == SLOTS + 1
    ensures Flatten(Recorded(h, op).gens) == Flatten(h.gens) + [op]
  {
    assert h.gens == h.gens[..SLOTS] + [h.gens[SLOTS]];
    assert Recorded(h, op).gens == h.gens[..SLOTS] + [h.gens[SLOTS] + [op]];
    FlattenSnoc(h.gens[..SLOTS], h.gens[SLOTS]);
    FlattenSnoc(h.gens[..SLOTS], h.gens[SLOTS] + [op]);
  }

  /** Place by place, the queue and the writer lie on that side of what `f` says
      of their generations. */
  ghost predicate Fits(side: Side, f: seq<Op> -> int, r: Ring, h: History)
    requires r.Valid() && |h.gens| == SLOTS + 1
  {
    forall i :: 0 <= i <= SLOTS ==> Toward(side, (Queue(r) + [r.writer])[i], f(h.gens[i]))
  }

  lemma AdvanceFits(side: Side, f: seq<Op> -> int, p: Params, r: Ring, h: History, now: nat)
    requires p.Valid() && r.Valid() && |h.gens| == SLOTS + 1 && Fits(side, f, r, h) && f([]) == 0
    ensures Fits(side, f, Advanced(p, r, now, SLOTS), AdvancedHistory(p, r, h, now))
  {
    if Elapsed(r, now) >= p.slot {
      var k := Min(SLOTS, Skipped(Elapsed(r, now), p.slot));
      AdvanceShiftsQueue(p, r, now, SLOTS);
      ShiftedFits(side, f, r, h, Advanced(p, r, now, SLOTS), k);
    }
  }

  lemma ShiftedFits(side: Side, f: seq<Op> -> int, r: Ring, h: History, t: Ring, k: nat)
    requires r.Valid() && t.Valid() && |h.gens| == SLOTS + 1 && Fits(side, f, r, h) && f([]) == 0
    requires k <= SLOTS && t.writer == 0 && Queue(t) == (Queue(r) + [r.writer] + Zeros(k))[k + 1..]
    ensures Fits(side, f, t, Shift(h, k + 1))
  {
    hide Queue, Toward;
    var before, after, gens := Queue(r) + [r.writer], Queue(t) + [t.writer], Shift(h, k + 1).gens;
    forall i | 0 <= i <= SLOTS ensures Toward(side, after[i], f(gens[i])) {
      if i < SLOTS - k {
        assert after[i] == before[i + k + 1] && gens[i] == h.gens[i + k + 1];
      } else {
        assert after[i] == 0 && gens[i] == [];
        SelfToward(side, 0);
      }
    }
  }

  lemma SelfToward(side: Side, x: int)
    ensures Toward(side, x, x)
  {
  }

  lemma RecordFits(side: Side, f: seq<Op> -> int, r: Ring, h: History, op: Op, writer: int)
    requires r.Valid() && |h.gens| == SLOTS + 1 && Fits(side, f, r, h)
    requires Toward(side, writer, f(h.gens[SLOTS] + [op]))
    ensures Fits(side, f, r.(writer := writer), Recorded(h, op))
  {
    hide Toward;
    var t := r.(writer := writer);
    assert forall i :: 0 <= i < SLOTS ==> (Queue(t) + [t.writer])[i] == (Queue(r) + [r.writer])[i];
  }

  lemma WriterFits(side: Side, f: seq<Op> -> int, r: Ring, h: History)
    requires r.Valid() && |h.gens| == SLOTS + 1 && Fits(side, f, r, h)
    ensures Toward(side, r.writer, f(h.gens[SLOTS]))
  {
    assert (Queue(r) + [r.writer])[SLOTS] == r.writer;
  }

  lemma StepLog(p: Params, r: Ring, h: History, op: Op)
    requires p.Valid() && r.Valid() && |h.gens| == SLOTS + 1
    ensures var t := StepHistory(p, r, h, op);
            t.forgotten + Flatten(t.gens)
              == h.forgotten + Flatten(h.gens) + (if Done(p, r, op, SLOTS).1 then [op] else [])
  {
    AdvanceKeepsLog(p, r, h, op.now);
    var a := AdvancedHistory(p, r, h, op.now);
    RecordedLog(a, op);
    assert a.forgotten + (Flatten(a.gens) + [op]) == a.forgotten + Flatten(a.gens) + [op];
  }

  lemma AdvanceKeepsLog(p: Params, r: Ring, h: History, now: nat)
    requires p.Valid() && |h.gens| == SLOTS + 1
    ensures var t := AdvancedHistory(p, r, h, now);
            t.forgotten + Flatten(t.gens) == h.forgotten + Flatten(h.gens)
  {
    if Elapsed(r, now) >= p.slot {
      ShiftKeepsLog(h, Min(SLOTS, Skipped(Elapsed(r, now), p.slot)) + 1);
    }
  }

  lemma DoneCharges(p: Params, r: Ring, op: Op, fuel: nat)
    requires r.Valid()
    ensures var a, d := Advanced(p, r, op.now, fuel), Done(p, r, op, fuel);
            d.0 == if d.1 then a.(writer := SatAdd(a.writer, Worth(p, op))) else a
  {
    hide Advanced, Balance;
  }

  lemma ChargeInside(side: Side, p: Params, r: Ring, op: Op, fuel: nat)
    requires r.Valid() && Unclamped(side, p, r, op, fuel) && Done(p, r, op, fuel).1
    ensures Inside(side, Advanced(p, r, op.now, fuel).writer + Worth(p, op))
  {
    hide Advanced, Balance;
  }

  lemma NetOne(p: Params, es: seq<Op>, op: Op)
    ensures Net(p, es + [op]) == Net(p, es) + Worth(p, op)
  {
    NetConcat(p, es, [op]);
    assert [op][1..] == [];
  }

  lemma StepErrs(side: Side, p: Params, r: Ring, h: History, op: Op)
    requires p.Valid() && r.Valid() && |h.gens| == SLOTS + 1 && Fits(side, es => Net(p, es), r, h)
    requires Unclamped(side, p, r, op, SLOTS)
    ensures Fits(side, es => Net(p, es), Done(p, r, op, SLOTS).0, StepHistory(p, r, h, op))
  {
    var f := es => Net(p, es);
    AdvanceFits(side, f, p, r, h, op.now);
    var a, b := Advanced(p, r, op.now, SLOTS), AdvancedHistory(p, r, h, op.now);
    DoneCharges(p, r, op, SLOTS);
    if Done(p, r, op, SLOTS).1 {
      ChargeInside(side, p, r, op, SLOTS);
      hide Advanced, AdvancedHistory, Done, Unclamped, Fits, Net;
      WriterFits(side, f, a, b);
      NetOne(p, b.gens[SLOTS], op);
      ClampErrs(side, a.writer, Worth(p, op), f(b.gens[SLOTS]));
      RecordFits(side, f, a, b, op, SatAdd(a.writer, Worth(p, op)));
    }
  }

  lemma FreshFits(side: Side, f: seq<Op> -> int, start: nat)
    requires f([]) == 0
    ensures Fits(side, f, Fresh(start), History([], Empties(SLOTS + 1)))
  {
  }

  /** In a run that never clamps at one end, every balance is the net of its
      generation or errs toward that end. */
  lemma {:induction false} RunErrs(side: Side, p: Params, start: nat, ops: seq<Op>)
    requires p.Valid() && RunUnclamped(side, p, start, ops, SLOTS)
    ensures Fits(side, es => Net(p, es), Run(p, start, ops, SLOTS).0, HistoryOf(p, start, ops))
    decreases |ops|
  {
    if ops == [] {
      FreshFits(side, es => Net(p, es), start);
    } else {
      var prev, op := ops[..|ops| - 1], ops[|ops| - 1];
      RunErrs(side, p, start, prev);
      hide Done, StepHistory, Fits, Net, Unclamped;
      StepErrs(side, p, Run(p, start, prev, SLOTS).0, HistoryOf(p, start, prev), op);
    }
  }

  /** The generations are a suffix of the log of granted operations, in order,
      with nothing lost and nothing counted twice. */
  lemma {:induction false} RunKeepsLog(p: Params, start: nat, ops: seq<Op>)
    requires p.Valid()
    ensures var h := HistoryOf(p, start, ops); Run(p, start, ops, SLOTS).1 == h.forgotten + Flatten(h.gens)
    decreases |ops|
  {
    if ops == [] {
      EmptiesFlatten(SLOTS + 1);
    } else {
      var prev, op := ops[..|ops| - 1], ops[|ops| - 1];
      RunKeepsLog(p, start, prev);
      hide Done, StepHistory, Flatten;
      StepLog(p, Run(p, start, prev, SLOTS).0, HistoryOf(p, start, prev), op);
    }
  }

  /** The refinement over a whole run: where nothing is clamped, every slot
      balance is the net of one generation. */
  lemma RunRefines(p: Params, start: nat, ops: seq<Op>)
    requires p.Valid() && NeverClamps(p, start, ops, SLOTS)
    ensures var r, h := Run(p, start, ops, SLOTS).0, HistoryOf(p, start, ops);
            && Queue(r) + [r.writer] == Balances(p, h.gens)
            && Run(p, start, ops, SLOTS).1 == h.forgotten + Flatten(h.gens)
  {
    hide Run, HistoryOf, RunUnclamped, Net, Flatten;
    RunErrs(Bottom, p, start, ops);
    RunErrs(Top, p, start, ops);
    RunKeepsLog(p, start, ops);
  }

  function Values(f: seq<Op> -> int, gens: seq<seq<Op>>): seq<int> {
    seq(|gens|, i requires 0 <= i < |gens| => f(gens[i]))
  }

  ghost predicate Additive(f: seq<Op> -> int) {
    f([]) == 0 && forall a, b :: f(a + b) == f(a) + f(b)
  }

  lemma {:induction false} SumOfValues(f: seq<Op> -> int, gens: seq<seq<Op>>)
    requires Additive(f)
    ensures Sum(Values(f, gens)) == f(Flatten(gens))
  {
    if gens != [] {
      assert Values(f, gens)[1..] == Values(f, gens[1..]);
      SumOfValues(f, gens[1..]);
    }
  }

  lemma {:induction false} SumsToward(side: Side, xs: seq<int>, ys: seq<int>)
    requires |xs| == |ys| && forall i :: 0 <= i < |xs| ==> Toward(side, xs[i], ys[i])
    ensures Toward(side, Sum(xs), Sum(ys))
  {
    if xs != [] {
      SumsToward(side, xs[1..], ys[1..]);
    }
  }

  /** All the balances together, against all the counted operations. */
  lemma WholeFits(side: Side, f: seq<Op> -> int, r: Ring, h: History)
    requires r.Valid() && |h.gens| == SLOTS + 1 && Fits(side, f, r, h) && Additive(f)
    ensures Toward(side, Sum(Queue(r)) + r.writer, f(Flatten(h.gens)))
  {
    hide Queue, Additive, Toward, Flatten;
    SumsToward(side, Queue(r) + [r.writer], Values(f, h.gens));
    SumOfValues(f, h.gens);
    SumConcat(Queue(r), [r.writer]);
    assert [r.writer][1..] == [];
  }

  lemma NetIsAdditive(p: Params)
    ensures Additive(es => Net(p, es))
  {
    forall a, b ensures Net(p, a + b) == Net(p, a) + Net(p, b) {
      NetConcat(p, a, b);
    }
  }

  // ----- Ages -------------------------------------------------------------

  ghost predicate Monotone(start: nat, ops: seq<Op>) {
    forall i, j :: 0 <= i <= j < |ops| ==> start <= ops[i].now <= ops[j].now
  }

  /** How old an entry `steps` shifts away from the writer is when the current
      generation starts: more than (steps - 1) / 2 slots, at most `steps`. */
  ghost predicate AgeFits(slot: nat, steps: nat, age: int) {
    if steps == 0 then 0 < age + slot && age <= 0
    else slot * ((steps - 1) / 2) < age <= slot * steps
  }

  ghost predicate AgesFit(slot: nat, genTime: nat, h: History)
    requires |h.gens| == SLOTS + 1
  {
    && (forall i, e :: 0 <= i <= SLOTS && e in h.gens[i] ==> AgeFits(slot, SLOTS - i, genTime - e.now))
    && (forall e :: e in h.forgotten ==> genTime - e.now > 5 * slot)
  }

  lemma Scale(slot: nat, a: nat, b: nat)
    requires a <= b
    ensures slot * a <= slot * b
  {
  }

  lemma Distribute(s: nat, a: nat, b: nat)
    ensures s * (a + b) == s * a + s * b
  {
  }

  lemma FirstAgeStep(slot: nat, age: int, n: nat, elapsed: nat)
    requires 0 < slot <= elapsed && n >= 1 && AgeFits(slot, 0, age)
    requires slot * (n - 1) < elapsed <= slot * n
    ensures AgeFits(slot, n, age + elapsed)
  {
    if n >= 3 {
      assert slot * (n - 1) == slot * (n - 2) + slot;
      Scale(slot, (n - 1) / 2, n - 2);
    }
  }

  lemma LaterAgeStep(slot: nat, steps: nat, age: int, n: nat, elapsed: nat)
    requires 0 < slot <= elapsed && n >= 1 && steps >= 1 && AgeFits(slot, steps, age)
    requires slot * (n - 1) < elapsed <= slot * n
    ensures AgeFits(slot, steps + n, age + elapsed)
  {
    var a, b, gap := (steps - 1) / 2, (steps + n - 1) / 2, if n == 1 then 1 else n - 1;
    assert slot * 1 == slot;
    Distribute(slot, steps, n);
    Distribute(slot, a, gap);
    Scale(slot, b, a + gap);
    Gather(slot * a, slot * gap, slot * b, age, elapsed);
  }

  lemma Gather(a: int, gap: int, b: int, age: int, elapsed: int)
    requires a < age && gap <= elapsed && b <= a + gap
    ensures b < age + elapsed
  {
  }

  lemma AgeStep(slot: nat, steps: nat, age: int, n: nat, elapsed: nat)
    requires 0 < slot <= elapsed && n >= 1 && AgeFits(slot, steps, age)
    requires slot * (n - 1) < elapsed <= slot * n
    ensures AgeFits(slot, steps + n, age + elapsed)
  {
    hide AgeFits;
    if steps == 0 {
      FirstAgeStep(slot, age, n, elapsed);
    } else {
      LaterAgeStep(slot, steps, age, n, elapsed);
    }
  }

  lemma OldEnough(slot: nat, steps: nat, age: int)
    requires AgeFits(slot, steps, age) && steps > SLOTS
    ensures age > 5 * slot
  {
    Scale(slot, 5, (steps - 1) / 2);
  }

  lemma YoungEnough(slot: nat, steps: nat, age: int)
    requires AgeFits(slot, steps, age) && steps <= SLOTS
    ensures age <= 10 * slot
  {
    Scale(slot, steps, 10);
  }

  lemma {:induction false} FlattenIndex(gens: seq<seq<Op>>, e: Op) returns (i: nat)
    requires e in Flatten(gens)
    ensures i < |gens| && e in gens[i]
  {
    if e in gens[0] {
      i := 0;
    } else {
      i := FlattenIndex(gens[1..], e);
      i := i + 1;
    }
  }

  lemma ShiftAgesKept(slot: nat, genTime: nat, h: History, now: nat, n: nat, k: nat, t: History)
    requires |h.gens| == SLOTS + 1 && AgesFit(slot, genTime, h)
    requires 0 < slot <= now - genTime && slot * (n - 1) < now - genTime <= slot * n
    requires n >= 1 && k == Min(SLOTS, n - 1) && t == Shift(h, k + 1)
    ensures forall i, e :: 0 <= i <= SLOTS && e in t.gens[i] ==> AgeFits(slot, SLOTS - i, now - e.now)
  {
    hide AgeFits;
    forall i, e | 0 <= i <= SLOTS && e in t.gens[i] ensures AgeFits(slot, SLOTS - i, now - e.now) {
      assert i + k + 1 <= SLOTS && e in h.gens[i + k + 1];
      AgeStep(slot, SLOTS - (i + k + 1), genTime - e.now, n, now - genTime);
    }
  }

  lemma ShiftAgesForgotten(slot: nat, genTime: nat, h: History, now: nat, n: nat, k: nat)
    requires |h.gens| == SLOTS + 1 && AgesFit(slot, genTime, h)
    requires 0 < slot <= now - genTime && slot * (n - 1) < now - genTime <= slot * n
    requires n >= 1 && k == Min(SLOTS, n - 1)
    ensures forall e :: e in Shift(h, k + 1).forgotten ==> now - e.now > 5 * slot
  {
    hide AgeFits;
    forall e | e in Shift(h, k + 1).forgotten ensures now - e.now > 5 * slot {
      if e !in h.forgotten {
        var i := FlattenIndex(h.gens[..k + 1], e);
        AgeStep(slot, SLOTS - i, genTime - e.now, n, now - genTime);
        OldEnough(slot, SLOTS - i + n, now - e.now);
      }
    }
  }

  lemma AdvanceKeepsAges(p: Params, r: Ring, h: History, now: nat)
    requires p.Valid() && r.Valid() && |h.gens| == SLOTS + 1 && now >= r.genTime
    requires AgesFit(p.slot, r.genTime, h)
    ensures AgesFit(p.slot, Advanced(p, r, now, SLOTS).genTime, AdvancedHistory(p, r, h, now))
  {
    var elapsed := Elapsed(r, now);
    if elapsed >= p.slot {
      hide AgeFits, Cleared, Flatten;
      var n := Skipped(elapsed, p.slot) + 1;
      SkippedIsCeiling(elapsed, p.slot);
      ShiftAgesKept(p.slot, r.genTime, h, now, n, Min(SLOTS, n - 1), AdvancedHistory(p, r, h, now));
      ShiftAgesForgotten(p.slot, r.genTime, h, now, n, Min(SLOTS, n - 1));
    }
  }

  lemma RecordKeepsAges(slot: nat, genTime: nat, h: History, op: Op)
    requires |h.gens| == SLOTS + 1 && AgesFit(slot, genTime, h)
    requires genTime <= op.now < genTime + slot
    ensures AgesFit(slot, genTime, Recorded(h, op))
  {
    assert AgeFits(slot, 0, genTime - op.now);
  }

  /** The ring's clock lags the last call by less than a slot. */
  lemma {:induction false} ClockFollows(p: Params, start: nat, ops: seq<Op>)
    requires p.Valid() && Monotone(start, ops)
    ensures var last := if ops == [] then start else ops[|ops| - 1].now;
            var t := Run(p, start, ops, SLOTS).0.genTime;
            t <= last < t + p.slot
    decreases |ops|
  {
    if ops != [] {
      assert Monotone(start, ops[..|ops| - 1]);
      ClockFollows(p, start, ops[..|ops| - 1]);
    }
  }

  lemma {:induction false} RunKeepsAges(p: Params, start: nat, ops: seq<Op>)
    requires p.Valid() && Monotone(start, ops)
    ensures AgesFit(p.slot, Run(p, start, ops, SLOTS).0.genTime, HistoryOf(p, start, ops))
    decreases |ops|
  {
    if ops != [] {
      var prev, op := ops[..|ops| - 1], ops[|ops| - 1];
      assert Monotone(start, prev);
      RunKeepsAges(p, start, prev);
      ClockFollows(p, start, prev);
      ClockFollows(p, start, ops);
      var r, h := Run(p, start, prev, SLOTS).0, HistoryOf(p, start, prev);
      AdvanceKeepsAges(p, r, h, op.now);
      if Done(p, r, op, SLOTS).1 {
        RecordKeepsAges(p.slot, Advanced(p, r, op.now, SLOTS).genTime, AdvancedHistory(p, r, h, op.now), op);
      }
    }
  }

  // ----- The window -------------------------------------------------------

  /** An operation of the given kind, less than `span` old at `now`, counts. */
  function One(op: Op, deposits: bool, now: nat, span: nat): nat {
    if op.Deposit? == deposits && now - op.now < span then 1 else 0
  }

  /** How many of `es` are of the given kind and less than `span` old at `now`. */
  function Recent(es: seq<Op>, deposits: bool, now: nat, span: nat): nat {
    if es == [] then 0 else One(es[0], deposits, now, span) + Recent(es[1..], deposits, now, span)
  }

  function Total(es: seq<Op>, deposits: bool): nat {
    if es == [] then 0
    else (if es[0].Deposit? == deposits then 1 else 0) + Total(es[1..], deposits)
  }

  lemma {:induction false} TotalConcat(a: seq<Op>, b: seq<Op>, deposits: bool)
    ensures Total(a + b, deposits) == Total(a, deposits) + Total(b, deposits)
  {
    if a == [] {
      assert a + b == b;
    } else {
      assert (a + b)[1..] == a[1..] + b;
      TotalConcat(a[1..], b, deposits);
    }
  }

  lemma TotalOne(op: Op)
    ensures Total([op], op.Deposit?) == 1 && Total([op], !op.Deposit?) == 0
  {
    assert [op][1..] == [];
  }

  lemma {:induction false} NetIsCounts(p: Params, es: seq<Op>)
    ensures Net(p, es) == p.depositAmount * Total(es, true) - p.withdrawAmount * Total(es, false)
  {
    if es != [] {
      NetIsCounts(p, es[1..]);
      var d, w := Total(es[1..], true), Total(es[1..], false);
      assert p.depositAmount * (1 + d) == p.depositAmount + p.depositAmount * d;
      assert p.withdrawAmount * (1 + w) == p.withdrawAmount + p.withdrawAmount * w;
    }
  }

  lemma {:induction false} RecentConcat(a: seq<Op>, b: seq<Op>, deposits: bool, now: nat, span: nat)
    ensures Recent(a + b, deposits, now, span) == Recent(a, deposits, now, span) + Recent(b, deposits, now, span)
  {
    if a == [] {
      assert a + b == b;
    } else {
      assert (a + b)[1..] == a[1..] + b;
      RecentConcat(a[1..], b, deposits, now, span);
    }
  }

  lemma {:induction false} NoneRecent(es: seq<Op>, deposits: bool, now: nat, span: nat)
    requires forall e :: e in es ==> now - e.now >= span
    ensures Recent(es, deposits, now, span) == 0
  {
    if es != [] {
      NoneRecent(es[1..], deposits, now, span);
    }
  }

  lemma {:induction false} AllRecent(es: seq<Op>, deposits: bool, now: nat, span: nat)
    requires forall e :: e in es ==> now - e.now < span
    ensures Recent(es, deposits, now, span) == Total(es, deposits)
  {
    if es != [] {
      AllRecent(es[1..], deposits, now, span);
    }
  }

  lemma {:induction false} RecentAtMostTotal(es: seq<Op>, deposits: bool, now: nat, span: nat)
    ensures Recent(es, deposits, now, span) <= Total(es, deposits)
  {
    if es != [] {
      RecentAtMostTotal(es[1..], deposits, now, span);
    }
  }

  /** What the budget counts after any run: a suffix of the granted operations,
      in which everything is younger than eleven slots, and outside which
      everything is older than five. */
  lemma CountedIsAWindow(p: Params, start: nat, ops: seq<Op>)
    requires p.Valid() && Monotone(start, ops) && ops != []
    ensures var h, now := HistoryOf(p, start, ops), ops[|ops| - 1].now;
            && (forall e :: e in Flatten(h.gens) ==> now - e.now < 11 * p.slot)
            && (forall e :: e in h.forgotten ==> now - e.now > 5 * p.slot)
  {
    RunKeepsAges(p, start, ops);
    ClockFollows(p, start, ops);
    var h, now := HistoryOf(p, start, ops), ops[|ops| - 1].now;
    forall e | e in Flatten(h.gens) ensures now - e.now < 11 * p.slot {
      var i := FlattenIndex(h.gens, e);
      YoungEnough(p.slot, SLOTS - i, Run(p, start, ops, SLOTS).0.genTime - e.now);
    }
  }

  /** The balance the code compares, in terms of calls: the reserve, plus what
      the counted deposits brought, minus what the counted withdrawals took.
      It is that, or errs toward the end at which nothing was clamped. */
  lemma BalanceIsWindow(side: Side, p: Params, start: nat, prev: seq<Op>, now: nat)
    requires p.Valid() && RunUnclamped(side, p, start, prev + [Op.Withdraw(now)], SLOTS)
    ensures var r := Run(p, start, prev, SLOTS).0;
            var h := AdvancedHistory(p, r, HistoryOf(p, start, prev), now);
            Toward(side, Balance(p, Advanced(p, r, now, SLOTS)), p.reserve + Net(p, Flatten(h.gens)))
  {
    hide Run, HistoryOf, Advanced, AdvancedHistory, Unclamped, Fits, Balance, Additive, Net, Flatten, Queue, Sum;
    var ops := prev + [Op.Withdraw(now)];
    assert ops[..|ops| - 1] == prev;
    var r, h, f := Run(p, start, prev, SLOTS).0, HistoryOf(p, start, prev), es => Net(p, es);
    RunErrs(side, p, start, prev);
    BalanceErrs(side, p, r, now, SLOTS);
    NetOfNothing(p);
    AdvanceFits(side, f, p, r, h, now);
    NetIsAdditive(p);
    WholeFits(side, f, Advanced(p, r, now, SLOTS), AdvancedHistory(p, r, h, now));
  }

  lemma NetOfNothing(p: Params)
    ensures Net(p, []) == 0
  {
  }

  /** The retry-rate guarantee.  Whenever a withdrawal is granted, then over
      the counted generations (the current one and the ten before it, this
      withdrawal included) withdrawals are covered by the reserve and the
      deposits of those same generations.  In clock terms: what was withdrawn
      in the last five slots is covered by the reserve and what was deposited
      in the last eleven.  Clamping at the top does no harm; only clamping at
      the bottom is ruled out. */
  lemma GrantedWithinRate(p: Params, start: nat, prev: seq<Op>, now: nat)
    requires p.Valid() && Monotone(start, prev + [Op.Withdraw(now)])
    requires RunUnclamped(Bottom, p, start, prev + [Op.Withdraw(now)], SLOTS)
    requires Done(p, Run(p, start, prev, SLOTS).0, Op.Withdraw(now), SLOTS).1
    ensures var ops := prev + [Op.Withdraw(now)];
            var log, counted := Run(p, start, ops, SLOTS).1, Flatten(HistoryOf(p, start, ops).gens);
            && log == HistoryOf(p, start, ops).forgotten + counted
            && p.withdrawAmount * Total(counted, false) <= p.reserve + p.depositAmount * Total(counted, true)
            && p.withdrawAmount * Recent(log, false, now, 5 * p.slot + 1)
                 <= p.reserve + p.depositAmount * Recent(log, true, now, 11 * p.slot)
  {
    var ops := prev + [Op.Withdraw(now)];
    var h := HistoryOf(p, start, ops);
    var counted := Flatten(h.gens);
    GrantIsCounted(p, start, prev, now);
    hide RunUnclamped, Run, HistoryOf, Flatten, Recent, Total, Done, Monotone;
    RunKeepsLog(p, start, ops);
    WindowBounds(p, start, ops, false);
    WindowBounds(p, start, ops, true);
    Scale(p.withdrawAmount, Recent(h.forgotten + counted, false, now, 5 * p.slot + 1), Total(counted, false));
    Scale(p.depositAmount, Total(counted, true), Recent(h.forgotten + counted, true, now, 11 * p.slot));
  }

  /** A granted withdrawal leaves the counted operations in balance. */
  lemma GrantIsCounted(p: Params, start: nat, prev: seq<Op>, now: nat)
    requires p.Valid() && RunUnclamped(Bottom, p, start, prev + [Op.Withdraw(now)], SLOTS)
    requires Done(p, Run(p, start, prev, SLOTS).0, Op.Withdraw(now), SLOTS).1
    ensures var counted := Flatten(HistoryOf(p, start, prev + [Op.Withdraw(now)]).gens);
            p.withdrawAmount * Total(counted, false) <= p.reserve + p.depositAmount * Total(counted, true)
  {
    var ops := prev + [Op.Withdraw(now)];
    assert ops[..|ops| - 1] == prev;
    var r := Run(p, start, prev, SLOTS).0;
    var before := AdvancedHistory(p, r, HistoryOf(p, start, prev), now);
    hide Run, Advanced, AdvancedHistory, RunUnclamped, Flatten, Net, Balance, Total;
    BalanceIsWindow(Bottom, p, start, prev, now);
    RecordedLog(before, Op.Withdraw(now));
    NetOne(p, Flatten(before.gens), Op.Withdraw(now));
    NetIsCounts(p, Flatten(before.gens) + [Op.Withdraw(now)]);
  }

  /** Counting by generation, between counting the last five slots and the last eleven. */
  lemma WindowBounds(p: Params, start: nat, ops: seq<Op>, deposits: bool)
    requires p.Valid() && Monotone(start, ops) && ops != []
    ensures var h, now := HistoryOf(p, start, ops), ops[|ops| - 1].now;
            Recent(h.forgotten + Flatten(h.gens), deposits, now, 5 * p.slot + 1)
              <= Total(Flatten(h.gens), deposits)
              <= Recent(h.forgotten + Flatten(h.gens), deposits, now, 11 * p.slot)
  {
    CountedIsAWindow(p, start, ops);
    hide Run, HistoryOf, Flatten, Recent, Total, Monotone;
    var h := HistoryOf(p, start, ops);
    WindowBound(p.slot, h.forgotten, Flatten(h.gens), deposits, ops[|ops| - 1].now);
  }

  lemma WindowBound(slot: nat, forgotten: seq<Op>, counted: seq<Op>, deposits: bool, now: nat)
    requires forall e :: e in counted ==> now - e.now < 11 * slot
    requires forall e :: e in forgotten ==> now - e.now > 5 * slot
    ensures Recent(forgotten + counted, deposits, now, 5 * slot + 1)
              <= Total(counted, deposits)
              <= Recent(forgotten + counted, deposits, now, 11 * slot)
  {
    hide Recent, Total;
    RecentConcat(forgotten, counted, deposits, now, 5 * slot + 1);
    RecentConcat(forgotten, counted, deposits, now, 11 * slot);
    NoneRecent(forgotten, deposits, now, 5 * slot + 1);
    RecentAtMostTotal(counted, deposits, now, 5 * slot + 1);
    AllRecent(counted, deposits, now, 11 * slot);
  }

  lemma Overdrawn(p: Params, deposits: nat, withdrawals: nat, few: nat, many: nat)
    requires p.reserve + p.depositAmount * deposits - p.withdrawAmount * withdrawals < p.withdrawAmount
    requires few <= deposits && withdrawals <= many
    ensures p.reserve + p.depositAmount * few < p.withdrawAmount * (many + 1)
  {
    Scale(p.depositAmount, few, deposits);
    Scale(p.withdrawAmount, withdrawals, many);
    assert p.withdrawAmount * (many + 1) == p.withdrawAmount * many + p.withdrawAmount;
  }

  /** The other side: a withdrawal is refused only if one more would overdraw,
      even counting just the deposits of the last five slots and all the
      withdrawals of the last eleven.  Clamping at the bottom does no harm;
      only clamping at the top is ruled out. */
  lemma RefusedOnlyWhenShort(p: Params, start: nat, prev: seq<Op>, now: nat)
    requires p.Valid() && Monotone(start, prev + [Op.Withdraw(now)])
    requires RunUnclamped(Top, p, start, prev + [Op.Withdraw(now)], SLOTS)
    requires !Done(p, Run(p, start, prev, SLOTS).0, Op.Withdraw(now), SLOTS).1
    ensures var log := Run(p, start, prev + [Op.Withdraw(now)], SLOTS).1;
            p.reserve + p.depositAmount * Recent(log, true, now, 5 * p.slot + 1)
              < p.withdrawAmount * (Recent(log, false, now, 11 * p.slot) + 1)
  {
    hide *;
    var ops := prev + [Op.Withdraw(now)];
    var h := HistoryOf(p, start, ops);
    RunKeepsLog(p, start, ops);
    RefusalIsShort(p, start, prev, now);
    WindowBounds(p, start, ops, false);
    WindowBounds(p, start, ops, true);
    ShortInWindow(p, h.forgotten + Flatten(h.gens), Flatten(h.gens), now);
  }

  lemma ShortInWindow(p: Params, log: seq<Op>, counted: seq<Op>, now: nat)
    requires p.reserve + p.depositAmount * Total(counted, true) - p.withdrawAmount * Total(counted, false)
               < p.withdrawAmount
    requires Recent(log, true, now, 5 * p.slot + 1) <= Total(counted, true)
    requires Total(counted, false) <= Recent(log, false, now, 11 * p.slot)
    ensures p.reserve + p.depositAmount * Recent(log, true, now, 5 * p.slot + 1)
              < p.withdrawAmount * (Recent(log, false, now, 11 * p.slot) + 1)
  {
    hide *;
    Overdrawn(p, Total(counted, true), Total(counted, false),
              Recent(log, true, now, 5 * p.slot + 1), Recent(log, false, now, 11 * p.slot));
  }

  /** A refused withdrawal leaves the counted operations as they are, and short. */
  lemma RefusalIsShort(p: Params, start: nat, prev: seq<Op>, now: nat)
    requires p.Valid() && RunUnclamped(Top, p, start, prev + [Op.Withdraw(now)], SLOTS)
    requires !Done(p, Run(p, start, prev, SLOTS).0, Op.Withdraw(now), SLOTS).1
    ensures var counted := Flatten(HistoryOf(p, start, prev + [Op.Withdraw(now)]).gens);
            p.reserve + p.depositAmount * Total(counted, true) - p.withdrawAmount * Total(counted, false)
              < p.withdrawAmount
  {
    var ops := prev + [Op.Withdraw(now)];
    assert ops[..|ops| - 1] == prev;
    var before := AdvancedHistory(p, Run(p, start, prev, SLOTS).0, HistoryOf(p, start, prev), now);
    hide Run, Advanced, AdvancedHistory, RunUnclamped, Flatten, Net, Balance, Total;
    BalanceIsWindow(Top, p, start, prev, now);
    NetIsCounts(p, Flatten(before.gens));
  }

  // ----- When nothing is clamped ------------------------------------------

  /** How far toward one end the operations can have moved a balance. */
  function Reach(side: Side, p: Params, es: seq<Op>): int {
    match side
    case Bottom => -(p.withdrawAmount * Total(es, false))
    case Top => p.depositAmount * Total(es, true)
  }

  function ReachOf(side: Side, p: Params): seq<Op> -> int {
    es => Reach(side, p, es)
  }

  /** What one operation adds to the reach. */
  function Push(side: Side, p: Params, op: Op): int {
    match side
    case Bottom => if op.Withdraw? then -(p.withdrawAmount as int) else 0
    case Top => if op.Deposit? then p.depositAmount else 0
  }

  lemma ReachConcat(side: Side, p: Params, a: seq<Op>, b: seq<Op>)
    ensures Reach(side, p, a + b) == Reach(side, p, a) + Reach(side, p, b)
  {
    var deposits := side.Top?;
    TotalConcat(a, b, deposits);
    hide Total;
    Distribute(if deposits then p.depositAmount else p.withdrawAmount, Total(a, deposits), Total(b, deposits));
  }

  lemma ReachOne(side: Side, p: Params, es: seq<Op>, op: Op)
    ensures Reach(side, p, es + [op]) == Reach(side, p, es) + Push(side, p, op)
  {
    ReachConcat(side, p, es, [op]);
    TotalOne(op);
  }

  lemma ReachIsAdditive(side: Side, p: Params)
    ensures Additive(ReachOf(side, p)) && ReachOf(side, p)([]) == 0
  {
    forall a, b ensures Reach(side, p, a + b) == Reach(side, p, a) + Reach(side, p, b) {
      ReachConcat(side, p, a, b);
    }
  }

  /** The balances of `r` are within the reach of the operations they stand for. */
  ghost predicate Within(side: Side, p: Params, r: Ring, h: History)
    requires r.Valid() && |h.gens| == SLOTS + 1
  {
    Fits(Opposite(side), ReachOf(side, p), r, h)
  }

  /** Clamping does not lead out of reach. */
  lemma SumWithin(side: Side, a: int, b: int, l: int, m: int)
    requires Toward(Opposite(side), a, l) && Toward(Opposite(side), b, m) && Toward(side, l + m, 0)
    ensures Toward(Opposite(side), SatAdd(a, b), l + m)
  {
  }

  lemma ReachSign(side: Side, p: Params, es: seq<Op>)
    ensures Toward(side, Reach(side, p, es), 0)
  {
  }

  lemma StepWithin(side: Side, p: Params, r: Ring, h: History, op: Op)
    requires p.Valid() && r.Valid() && |h.gens| == SLOTS + 1 && Within(side, p, r, h)
    ensures Within(side, p, Done(p, r, op, SLOTS).0, StepHistory(p, r, h, op))
  {
    var a, b, f := Advanced(p, r, op.now, SLOTS), AdvancedHistory(p, r, h, op.now), ReachOf(side, p);
    ReachIsAdditive(side, p);
    AdvanceFits(Opposite(side), f, p, r, h, op.now);
    DoneCharges(p, r, op, SLOTS);
    if Done(p, r, op, SLOTS).1 {
      hide Advanced, AdvancedHistory, Done, Fits, Reach, Additive;
      var es := b.gens[SLOTS];
      WriterFits(Opposite(side), f, a, b);
      ReachOne(side, p, es, op);
      ReachSign(side, p, es + [op]);
      SumWithin(side, a.writer, Worth(p, op), Reach(side, p, es), Push(side, p, op));
      RecordFits(Opposite(side), f, a, b, op, SatAdd(a.writer, Worth(p, op)));
    }
  }

  /** Clamping or not, no balance gets out of reach. */
  lemma {:induction false} RunWithin(side: Side, p: Params, start: nat, ops: seq<Op>)
    requires p.Valid()
    ensures Within(side, p, Run(p, start, ops, SLOTS).0, HistoryOf(p, start, ops))
    decreases |ops|
  {
    if ops == [] {
      ReachIsAdditive(side, p);
      FreshFits(Opposite(side), ReachOf(side, p), start);
    } else {
      var prev, op := ops[..|ops| - 1], ops[|ops| - 1];
      RunWithin(side, p, start, prev);
      hide Done, StepHistory, Within;
      StepWithin(side, p, Run(p, start, prev, SLOTS).0, HistoryOf(p, start, prev), op);
    }
  }

  lemma {:induction false} SumSign(side: Side, xs: seq<int>)
    requires forall i :: 0 <= i < |xs| ==> Toward(side, xs[i], 0)
    ensures Toward(side, Sum(xs), 0)
  {
    if xs != [] {
      SumSign(side, xs[1..]);
    }
  }

  /** A fold of values within limits that add up to something inside the range
      is not clamped, and stays within the limits' sum. */
  lemma {:induction false} FoldWithin(side: Side, acc: int, xs: seq<int>, limits: seq<int>, limit: int)
    requires |xs| == |limits| && forall i :: 0 <= i < |xs| ==> Toward(Opposite(side), xs[i], limits[i])
    requires forall i :: 0 <= i < |xs| ==> Toward(side, limits[i], 0)
    requires Toward(Opposite(side), acc, limit) && Toward(side, limit, 0) && Inside(side, limit + Sum(limits))
    ensures FoldInside(side, acc, xs)
    ensures Toward(Opposite(side), SatFold(acc, xs), limit + Sum(limits))
    decreases |xs|
  {
    if xs != [] {
      SumSign(side, limits[1..]);
      SumWithin(side, acc, xs[0], limit, limits[0]);
      FoldWithin(side, SatAdd(acc, xs[0]), xs[1..], limits[1..], limit + limits[0]);
    }
  }

  /** Room for `n` deposits, or for `n` withdrawals, on the way to that end. */
  predicate Enough(side: Side, p: Params, n: nat) {
    match side
    case Bottom => p.withdrawAmount * n <= -ISIZE_MIN
    case Top => p.depositAmount * n + p.reserve <= ISIZE_MAX
  }

  /** The limits of the array's places, in the order of the array. */
  lemma BucketLimits(side: Side, p: Params, a: Ring, h: History) returns (limits: seq<int>)
    requires a.Valid() && |h.gens| == SLOTS + 1 && Within(side, p, a, h)
    ensures |limits| == SLOTS
    ensures forall i :: 0 <= i < SLOTS ==>
              Toward(Opposite(side), a.buckets[i], limits[i]) && Toward(side, limits[i], 0)
    ensures Sum(limits) + Reach(side, p, h.gens[SLOTS]) == Reach(side, p, Flatten(h.gens))
  {
    var f := ReachOf(side, p);
    var reaches := Values(f, h.gens);
    limits := Rotated(reaches[..SLOTS], SLOTS - a.genIndex);
    forall i | 0 <= i < SLOTS
      ensures Toward(Opposite(side), a.buckets[i], limits[i]) && Toward(side, limits[i], 0)
    {
      var k := if i < a.genIndex then SLOTS - a.genIndex + i else i - a.genIndex;
      assert (Queue(a) + [a.writer])[k] == a.buckets[i] && limits[i] == reaches[k] == f(h.gens[k]);
      ReachSign(side, p, h.gens[k]);
    }
    hide Reach, Fits, Flatten, Rotated, Toward, Queue;
    SumRotated(reaches[..SLOTS], SLOTS - a.genIndex);
    SumOfReaches(side, p, h);
  }

  lemma SumOfReaches(side: Side, p: Params, h: History)
    requires |h.gens| == SLOTS + 1
    ensures Sum(Values(ReachOf(side, p), h.gens)[..SLOTS]) + Reach(side, p, h.gens[SLOTS])
            == Reach(side, p, Flatten(h.gens))
  {
    var f := ReachOf(side, p);
    var reaches := Values(f, h.gens);
    ReachIsAdditive(side, p);
    hide Reach, Additive, Flatten, Sum;
    SumOfValues(f, h.gens);
    SumConcat(reaches[..SLOTS], [reaches[SLOTS]]);
    assert reaches[..SLOTS] + [reaches[SLOTS]] == reaches;
    SumOfOne(reaches[SLOTS]);
  }

  lemma SumOfOne(x: int)
    ensures Sum([x]) == x
  {
    assert [x][1..] == [];
  }

  lemma EnoughRoom(side: Side, p: Params, es: seq<Op>, n: nat)
    requires Enough(side, p, n) && Total(es, side.Top?) <= n
    ensures Inside(side, Reach(side, p, es) + if side.Top? then p.reserve else 0)
  {
    hide Total;
    Scale(if side.Top? then p.depositAmount else p.withdrawAmount, Total(es, side.Top?), n);
  }

  /** With room for the counted operations and this one, nothing is clamped. */
  lemma RoomyAdditions(side: Side, p: Params, a: Ring, h: History, op: Op, n: nat)
    requires a.Valid() && |h.gens| == SLOTS + 1 && Within(side, p, a, h)
    requires Enough(side, p, n) && Total(Flatten(h.gens) + [op], side.Top?) <= n
    ensures AdditionsInside(side, p, a, op)
  {
    var counted, last := Flatten(h.gens), h.gens[SLOTS];
    var limits := BucketLimits(side, p, a, h);
    WriterFits(Opposite(side), ReachOf(side, p), a, h);
    EnoughRoom(side, p, counted + [op], n);
    ReachOne(side, p, counted, op);
    ReachSign(side, p, counted);
    ReachSign(side, p, last);
    SumSign(side, limits);
    hide Fits, Reach, Flatten, Total, Sum, SatFold, FoldInside, Enough, Balance;
    FoldWithin(side, 0, a.buckets, limits, 0);
    SumWithin(side, a.writer, SatFold(0, a.buckets), Reach(side, p, last), Sum(limits));
  }

  lemma CallIsRoomy(side: Side, p: Params, start: nat, prev: seq<Op>, op: Op, n: nat, b: Ring, fuel: nat)
    requires p.Valid() && Enough(side, p, n) && b.Valid()
    requires var r := Run(p, start, prev, SLOTS).0;
             && Total(Flatten(AdvancedHistory(p, r, HistoryOf(p, start, prev), op.now).gens) + [op], side.Top?) <= n
             && SameQueue(Advanced(p, r, op.now, SLOTS), Advanced(p, b, op.now, fuel))
    ensures Unclamped(side, p, b, op, fuel)
  {
    var r, h := Run(p, start, prev, SLOTS).0, HistoryOf(p, start, prev);
    RunWithin(side, p, start, prev);
    ReachIsAdditive(side, p);
    hide Run, HistoryOf, Advanced, AdvancedHistory, Flatten, Total, Queue, Enough, Additive;
    AdvanceFits(Opposite(side), ReachOf(side, p), p, r, h, op.now);
    RoomyAdditions(side, p, Advanced(p, b, op.now, fuel), AdvancedHistory(p, r, h, op.now), op, n);
  }

  lemma {:induction false} LogWithinCalls(p: Params, start: nat, ops: seq<Op>, deposits: bool)
    ensures Total(Run(p, start, ops, SLOTS).1, deposits) <= Total(ops, deposits)
    decreases |ops|
  {
    if ops != [] {
      var prev, op := ops[..|ops| - 1], ops[|ops| - 1];
      LogWithinCalls(p, start, prev, deposits);
      hide Done, Total;
      TotalConcat(Run(p, start, prev, SLOTS).1, [op], deposits);
      TotalConcat(prev, [op], deposits);
      assert prev + [op] == ops;
    }
  }

  /** What is counted when a call is served was called before. */
  lemma CountedWithinCalls(p: Params, start: nat, prev: seq<Op>, op: Op, deposits: bool)
    requires p.Valid()
    ensures var r := Run(p, start, prev, SLOTS).0;
            Total(Flatten(AdvancedHistory(p, r, HistoryOf(p, start, prev), op.now).gens) + [op], deposits)
              <= Total(prev + [op], deposits)
  {
    hide Run, HistoryOf, AdvancedHistory, Flatten, Total;
    var r, h := Run(p, start, prev, SLOTS).0, HistoryOf(p, start, prev);
    var a := AdvancedHistory(p, r, h, op.now);
    RunKeepsLog(p, start, prev);
    AdvanceKeepsLog(p, r, h, op.now);
    LogWithinCalls(p, start, prev, deposits);
    TotalConcat(a.forgotten, Flatten(a.gens), deposits);
    TotalConcat(Flatten(a.gens), [op], deposits);
    TotalConcat(prev, [op], deposits);
  }

  /** A caller can check the hypothesis of the theorems above by counting:
      withdrawals cannot clamp at the bottom before there are 2^63 divided by
      their cost of them, and deposits not at the top before they fill the
      range above the reserve. */
  lemma {:induction false} FewCallsNeverSaturate(side: Side, p: Params, start: nat, ops: seq<Op>)
    requires p.Valid() && Enough(side, p, Total(ops, side.Top?))
    ensures RunUnclamped(side, p, start, ops, SLOTS)
    decreases |ops|
  {
    if ops != [] {
      var prev, op := ops[..|ops| - 1], ops[|ops| - 1];
      assert ops == prev + [op];
      FewerIsEnough(side, p, prev, op);
      FewCallsNeverSaturate(side, p, start, prev);
      CountedWithinCalls(p, start, prev, op, side.Top?);
      hide Run, HistoryOf, Advanced, AdvancedHistory, Total, Enough, Unclamped;
      CallIsRoomy(side, p, start, prev, op, Total(ops, side.Top?), Run(p, start, prev, SLOTS).0, SLOTS);
    }
  }

  lemma FewerIsEnough(side: Side, p: Params, prev: seq<Op>, op: Op)
    requires Enough(side, p, Total(prev + [op], side.Top?))
    ensures Enough(side, p, Total(prev, side.Top?))
  {
    TotalConcat(prev, [op], side.Top?);
    hide Total;
    Scale(if side.Top? then p.depositAmount else p.withdrawAmount, Total(prev, side.Top?),
          Total(prev + [op], side.Top?));
  }

  lemma {:induction false} RecentLog(p: Params, start: nat, ops: seq<Op>, deposits: bool, now: nat, span: nat)
    ensures Recent(Run(p, start, ops, SLOTS).1, deposits, now, span) <= Recent(ops, deposits, now, span)
    decreases |ops|
  {
    if ops != [] {
      var prev, op := ops[..|ops| - 1], ops[|ops| - 1];
      RecentLog(p, start, prev, deposits, now, span);
      hide Done, Recent;
      RecentSnoc(Run(p, start, prev, SLOTS).1, op, deposits, now, span);
      RecentSnoc(prev, op, deposits, now, span);
      assert prev + [op] == ops;
    }
  }

  /** What is counted when a call is served was called within eleven slots. */
  lemma CountedIsRecent(p: Params, start: nat, prev: seq<Op>, op: Op, deposits: bool)
    requires p.Valid() && Monotone(start, prev + [op])
    ensures var r := Run(p, start, prev, SLOTS).0;
            Total(Flatten(AdvancedHistory(p, r, HistoryOf(p, start, prev), op.now).gens) + [op], deposits)
              <= Recent(prev + [op], deposits, op.now, 11 * p.slot)
  {
    var r, h := Run(p, start, prev, SLOTS).0, HistoryOf(p, start, prev);
    var a, span := AdvancedHistory(p, r, h, op.now), 11 * p.slot;
    AdvancedIsYoung(p, start, prev, op);
    hide Run, HistoryOf, AdvancedHistory, Flatten, Total, Recent, One;
    RunKeepsLog(p, start, prev);
    AdvanceKeepsLog(p, r, h, op.now);
    RecentLog(p, start, prev, deposits, op.now, span);
    RecentConcat(a.forgotten, Flatten(a.gens), deposits, op.now, span);
    RecentSnoc(Flatten(a.gens), op, deposits, op.now, span);
    RecentSnoc(prev, op, deposits, op.now, span);
    AllRecent(Flatten(a.gens) + [op], deposits, op.now, span);
  }

  lemma AdvancedIsYoung(p: Params, start: nat, prev: seq<Op>, op: Op)
    requires p.Valid() && Monotone(start, prev + [op])
    ensures var a := AdvancedHistory(p, Run(p, start, prev, SLOTS).0, HistoryOf(p, start, prev), op.now);
            forall e :: e in Flatten(a.gens) ==> op.now - e.now < 11 * p.slot
  {
    var ops := prev + [op];
    assert ops[..|ops| - 1] == prev;
    var a := AdvancedHistory(p, Run(p, start, prev, SLOTS).0, HistoryOf(p, start, prev), op.now);
    CountedIsAWindow(p, start, ops);
    RecordedLog(a, op);
    hide Run, AdvancedHistory, Flatten, Done, Recorded;
  }

  /** There is room for the calls of any eleven slots in a row. */
  ghost predicate Roomy(side: Side, p: Params, ops: seq<Op>) {
    forall i :: 0 < i <= |ops| ==> Enough(side, p, Recent(ops[..i], side.Top?, ops[i - 1].now, 11 * p.slot))
  }

  lemma RoomyParts(side: Side, p: Params, prev: seq<Op>, op: Op)
    requires Roomy(side, p, prev + [op])
    ensures Roomy(side, p, prev)
    ensures Enough(side, p, Recent(prev + [op], side.Top?, op.now, 11 * p.slot))
  {
    hide Enough, Recent;
    var ops := prev + [op];
    assert ops[..|ops|] == ops;
    forall i | 0 < i <= |prev|
      ensures Enough(side, p, Recent(prev[..i], side.Top?, prev[i - 1].now, 11 * p.slot))
    {
      assert prev[..i] == ops[..i];
    }
  }

  lemma MonotonePrefix(start: nat, prev: seq<Op>, op: Op)
    requires Monotone(start, prev + [op])
    ensures Monotone(start, prev)
  {
    var ops := prev + [op];
    assert forall i :: 0 <= i < |prev| ==> prev[i] == ops[i];
  }

  lemma RecentIsRoomy(side: Side, p: Params, start: nat, prev: seq<Op>, op: Op)
    requires p.Valid() && Monotone(start, prev + [op])
    requires Enough(side, p, Recent(prev + [op], side.Top?, op.now, 11 * p.slot))
    ensures Unclamped(side, p, Run(p, start, prev, SLOTS).0, op, SLOTS)
  {
    hide Run, HistoryOf, Advanced, AdvancedHistory, Flatten, Total, Recent, Enough, Unclamped, Monotone;
    var r := Run(p, start, prev, SLOTS).0;
    CountedIsRecent(p, start, prev, op, side.Top?);
    SameQueueIsValid(Advanced(p, r, op.now, SLOTS), Advanced(p, r, op.now, SLOTS));
    CallIsRoomy(side, p, start, prev, op, Recent(prev + [op], side.Top?, op.now, 11 * p.slot), r, SLOTS);
  }

  /** For a monotone clock that is enough. */
  lemma {:induction false} SlowCallsNeverSaturate(side: Side, p: Params, start: nat, ops: seq<Op>)
    requires p.Valid() && Monotone(start, ops) && Roomy(side, p, ops)
    ensures RunUnclamped(side, p, start, ops, SLOTS)
    decreases |ops|
  {
    if ops != [] {
      hide Roomy, Monotone, Run, Unclamped, Enough, Recent;
      var prev, op := ops[..|ops| - 1], ops[|ops| - 1];
      assert ops == prev + [op];
      RoomyParts(side, p, prev, op);
      MonotonePrefix(start, prev, op);
      SlowCallsNeverSaturate(side, p, start, prev);
      RecentIsRoomy(side, p, start, prev, op);
    }
  }

  // ----- The cap on the clearing loop -------------------------------------

  /** No clock reading is far enough ahead for an `elapsed` bound to cut the loop. */
  lemma ElapsedIsNoBound(elapsed: nat, slot: nat)
    requires 0 < slot
    ensures Skipped(elapsed, slot) <= elapsed
  {
    SkippedIsCeiling(elapsed, slot);
    var k := Skipped(elapsed, slot);
    if elapsed > 0 {
      assert k <= k * slot;
    }
  }

  /** Two rings no caller can tell apart, wherever their indices point. */
  ghost predicate SameQueue(a: Ring, b: Ring) {
    a.Valid() && b.Valid() && Queue(a) == Queue(b) && a.writer == b.writer && a.genTime == b.genTime
  }

  /** The cap is ten rounds or more, or it is never reached. */
  predicate CapFits(fuel: nat, r: Ring, now: nat) {
    fuel >= SLOTS || fuel >= Elapsed(r, now)
  }

  lemma AdvanceKeepsSameQueue(p: Params, a: Ring, b: Ring, now: nat, f: nat, g: nat)
    requires p.Valid() && SameQueue(a, b) && CapFits(f, a, now) && CapFits(g, b, now)
    ensures SameQueue(Advanced(p, a, now, f), Advanced(p, b, now, g))
  {
    var elapsed := Elapsed(a, now);
    if elapsed >= p.slot {
      AdvanceShiftsQueue(p, a, now, f);
      AdvanceShiftsQueue(p, b, now, g);
      ElapsedIsNoBound(elapsed, p.slot);
      hide Skipped, Advanced;
      var k, l := Min(f, Skipped(elapsed, p.slot)), Min(g, Skipped(elapsed, p.slot));
      if k != l {
        var all := Queue(a) + [a.writer];
        assert (all + Zeros(k))[k + 1..] == Zeros(SLOTS) == (all + Zeros(l))[l + 1..];
      }
    }
  }

  /** A loop whose cap is not below the elapsed time is a loop without a cap. */
  lemma {:induction false} UncappedLoop(b: seq<int>, idx: nat, remaining: nat, slot: nat, f: nat, g: nat)
    requires |b| == SLOTS && idx < SLOTS && 0 < slot && f >= remaining && g >= remaining
    ensures Cleared(b, idx, remaining, slot, f) == Cleared(b, idx, remaining, slot, g)
    decreases remaining
  {
    if remaining > slot {
      UncappedLoop(b[idx := 0], (idx + 1) % SLOTS, remaining - slot, slot, f - 1, g - 1);
    }
  }

  /** Two rings with the same queue, after advancing, do the same with a call
      that clamps nothing. */
  lemma SameAnswer(p: Params, a: Ring, b: Ring, op: Op, f: nat, g: nat)
    requires a.Valid() && b.Valid() && SameQueue(Advanced(p, a, op.now, f), Advanced(p, b, op.now, g))
    requires Unclamped(Bottom, p, a, op, f) && Unclamped(Top, p, a, op, f)
    requires Unclamped(Bottom, p, b, op, g) && Unclamped(Top, p, b, op, g)
    ensures SameQueue(Done(p, a, op, f).0, Done(p, b, op, g).0) && Done(p, a, op, f).1 == Done(p, b, op, g).1
  {
    if op.Withdraw? {
      BalanceErrs(Bottom, p, a, op.now, f);
      BalanceErrs(Top, p, a, op.now, f);
      BalanceErrs(Bottom, p, b, op.now, g);
      BalanceErrs(Top, p, b, op.now, g);
    }
    hide Advanced, Unclamped, Balance;
  }

  /** Capping the clearing loop at ten rounds changes nothing a caller can see:
      with any larger bound the same calls are granted, for ever, as long as
      neither loop's run clamps. */
  lemma {:induction false} CapIsInvisible(p: Params, start: nat, ops: seq<Op>, fuel: nat)
    requires p.Valid() && fuel >= SLOTS
    requires NeverClamps(p, start, ops, SLOTS) && NeverClamps(p, start, ops, fuel)
    ensures Run(p, start, ops, SLOTS).1 == Run(p, start, ops, fuel).1
    ensures SameQueue(Run(p, start, ops, SLOTS).0, Run(p, start, ops, fuel).0)
    decreases |ops|
  {
    if ops != [] {
      var prev, op := ops[..|ops| - 1], ops[|ops| - 1];
      CapIsInvisible(p, start, prev, fuel);
      hide Done, Advanced, Unclamped, SameQueue;
      var a, b := Run(p, start, prev, SLOTS).0, Run(p, start, prev, fuel).0;
      AdvanceKeepsSameQueue(p, a, b, op.now, SLOTS, fuel);
      SameAnswer(p, a, b, op, SLOTS, fuel);
    }
  }

  /** Against the loop without a cap (`fuel` is not below any elapsed time), with
      nothing assumed of either run but room for its calls: the same calls are
      granted and the same queue is left. */
  lemma {:induction false} CapNeverMatters(p: Params, start: nat, ops: seq<Op>, fuel: nat)
    requires p.Valid() && Enough(Bottom, p, Total(ops, false)) && Enough(Top, p, Total(ops, true))
    requires forall op :: op in ops ==> op.now <= fuel
    ensures Run(p, start, ops, SLOTS).1 == Run(p, start, ops, fuel).1
    ensures SameQueue(Run(p, start, ops, SLOTS).0, Run(p, start, ops, fuel).0)
    decreases |ops|
  {
    if ops != [] {
      hide Run, Done, SameQueue, Total, Enough;
      var prev, op := ops[..|ops| - 1], ops[|ops| - 1];
      assert ops == prev + [op] && op in ops;
      FewerIsEnough(Bottom, p, prev, op);
      FewerIsEnough(Top, p, prev, op);
      CapNeverMatters(p, start, prev, fuel);
      CapStep(p, start, prev, op, Run(p, start, prev, fuel).0, fuel);
      RunSnoc(p, start, prev, op, SLOTS);
      RunSnoc(p, start, prev, op, fuel);
    }
  }

  lemma CapStep(p: Params, start: nat, prev: seq<Op>, op: Op, b: Ring, fuel: nat)
    requires p.Valid() && Enough(Bottom, p, Total(prev + [op], false)) && Enough(Top, p, Total(prev + [op], true))
    requires b.Valid() && SameQueue(Run(p, start, prev, SLOTS).0, b) && op.now <= fuel
    ensures var d, e := Done(p, Run(p, start, prev, SLOTS).0, op, SLOTS), Done(p, b, op, fuel);
            SameQueue(d.0, e.0) && d.1 == e.1
  {
    hide Run, Done, Advanced, Unclamped, SameQueue, Total, Enough;
    var a := Run(p, start, prev, SLOTS).0;
    AdvanceKeepsSameQueue(p, a, b, op.now, SLOTS, fuel);
    BothRoomy(Bottom, p, start, prev, op, b, fuel);
    BothRoomy(Top, p, start, prev, op, b, fuel);
    SameAnswer(p, a, b, op, SLOTS, fuel);
  }

  lemma SameQueueIsValid(a: Ring, b: Ring)
    ensures SameQueue(a, b) ==> a.Valid() && b.Valid()
    ensures a.Valid() ==> SameQueue(a, a)
  {
  }

  lemma BothRoomy(side: Side, p: Params, start: nat, prev: seq<Op>, op: Op, b: Ring, fuel: nat)
    requires p.Valid() && Enough(side, p, Total(prev + [op], side.Top?)) && b.Valid()
    requires SameQueue(Advanced(p, Run(p, start, prev, SLOTS).0, op.now, SLOTS), Advanced(p, b, op.now, fuel))
    ensures Unclamped(side, p, Run(p, start, prev, SLOTS).0, op, SLOTS) && Unclamped(side, p, b, op, fuel)
  {
    hide Run, HistoryOf, Advanced, AdvancedHistory, Unclamped, SameQueue, Total, Enough;
    CountedWithinCalls(p, start, prev, op, side.Top?);
    var n, r := Total(prev + [op], side.Top?), Run(p, start, prev, SLOTS).0;
    SameQueueIsValid(Advanced(p, r, op.now, SLOTS), Advanced(p, r, op.now, SLOTS));
    CallIsRoomy(side, p, start, prev, op, n, r, SLOTS);
    CallIsRoomy(side, p, start, prev, op, n, b, fuel);
  }

  /** The index, in contrast, does depend on the cap. */
  lemma CapMovesTheIndex()
    ensures Advanced(Params(1, 1, 0, 1), Fresh(0), 13, SLOTS).genIndex == 1
    ensures Advanced(Params(1, 1, 0, 1), Fresh(0), 13, 13).genIndex == 3
  {
    hide Advanced, Skipped;
    var p := Params(1, 1, 0, 1);
    assert Skipped(13, 1) == 12 by {
      SkippedIsCeiling(13, 1);
    }
    AdvanceMovesIndex(p, Fresh(0), 13, SLOTS);
    AdvanceMovesIndex(p, Fresh(0), 13, 13);
  }

  // ----- Where clamping breaks the rate -----------------------------------

  lemma {:induction false} FoldOfZeros(acc: int, n: nat)
    requires InRange(acc)
    ensures SatFold(acc, Zeros(n)) == acc
  {
    if n > 0 {
      assert Zeros(n)[1..] == Zeros(n - 1);
      FoldOfZeros(acc, n - 1);
    }
  }

  lemma FoldOfOne(x: int, b: seq<int>)
    requires InRange(x) && b == [x] + Zeros(SLOTS - 1)
    ensures SatFold(0, b) == x
  {
    assert b[1..] == Zeros(SLOTS - 1);
    FoldOfZeros(x, SLOTS - 1);
  }

  function Deposits(n: nat): seq<Op> {
    seq(n, _ => Deposit(0))
  }

  lemma MoreDeposits(n: nat)
    ensures Deposits(n + 1) == Deposits(n) + [Deposit(0)]
  {
  }

  /** As many deposits as it takes, of one each, all within the first slot. */
  lemma {:induction false} DepositsFill(p: Params, n: nat)
    requires p.depositAmount == 1 && p.slot > 0
    ensures Run(p, 0, Deposits(n), SLOTS) == (Fresh(0).(writer := Min(n, ISIZE_MAX)), Deposits(n))
  {
    if n > 0 {
      DepositsFill(p, n - 1);
      MoreDeposits(n - 1);
      hide Run, Deposits;
      RunSnoc(p, 0, Deposits(n - 1), Deposit(0), SLOTS);
    } else {
      assert Deposits(0) == [];
    }
  }

  lemma {:induction false} RecentDeposits(n: nat, now: nat, span: nat)
    requires now < span
    ensures Recent(Deposits(n), true, now, span) == n && Recent(Deposits(n), false, now, span) == 0
  {
    if n > 0 {
      RecentDeposits(n - 1, now, span);
      assert Deposits(n)[1..] == Deposits(n - 1);
    }
  }

  /** Three more calls, all granted. */
  lemma RunThree(p: Params, es: seq<Op>, x: Op, y: Op, z: Op, r0: Ring, r1: Ring, r2: Ring, r3: Ring)
    requires Run(p, 0, es, SLOTS) == (r0, es)
    requires r0.Valid() && Done(p, r0, x, SLOTS) == (r1, true)
    requires r1.Valid() && Done(p, r1, y, SLOTS) == (r2, true)
    requires r2.Valid() && Done(p, r2, z, SLOTS) == (r3, true)
    ensures Run(p, 0, es + [x] + [y] + [z], SLOTS) == (r3, es + [x] + [y] + [z])
  {
    hide Run, Done;
    RunSnoc(p, 0, es, x, SLOTS);
    RunSnoc(p, 0, es + [x], y, SLOTS);
    RunSnoc(p, 0, es + [x] + [y], z, SLOTS);
  }

  lemma RecentSnoc(es: seq<Op>, op: Op, deposits: bool, now: nat, span: nat)
    ensures Recent(es + [op], deposits, now, span) == Recent(es, deposits, now, span) + One(op, deposits, now, span)
  {
    RecentConcat(es, [op], deposits, now, span);
    assert [op][1..] == [];
  }

  /** What a retry percentage of next to nothing sets a budget to: deposits are
      worth one, and the cost of a withdrawal and the reserve both saturate. */
  const STINGY := Params(1, ISIZE_MAX, ISIZE_MAX, 1)

  /** Clamping at the bottom grants too much: after enough deposits to cover two
      withdrawals, part of the second one's charge is lost to it, and the next
      deposit is enough for a third. */
  lemma BottomClampGrants()
    ensures var p, prev := STINGY, Deposits(ISIZE_MAX) + [Withdraw(1)] + [Withdraw(1)] + [Deposit(1)];
            && Done(p, Run(p, 0, prev, SLOTS).0, Withdraw(1), SLOTS).1
            && var log := Run(p, 0, prev + [Withdraw(1)], SLOTS).1;
               p.withdrawAmount * Recent(log, false, 1, 5 * p.slot + 1)
                 > p.reserve + p.depositAmount * Recent(log, true, 1, 11 * p.slot)
  {
    var p, d, w := STINGY, Deposit(1), Withdraw(1);
    var b := [ISIZE_MAX] + Zeros(SLOTS - 1);
    var r0 := Fresh(0).(writer := ISIZE_MAX);
    var r1 := Ring(b, -ISIZE_MAX, 1, 1);
    var r2, r3 := r1.(writer := ISIZE_MIN), r1;
    DepositsFill(p, ISIZE_MAX);
    assert Advanced(p, r0, 1, SLOTS) == r1.(writer := 0) by {
      assert r0.buckets[0 := ISIZE_MAX] == b;
    }
    FoldOfOne(ISIZE_MAX, b);
    hide SatFold, Cleared, Zeros, Deposits, Run;
    assert Done(p, r0, w, SLOTS) == (r1, true);
    assert Done(p, r1, w, SLOTS) == (r2, true);
    assert Done(p, r2, d, SLOTS) == (r3, true);
    assert Done(p, r3, w, SLOTS).1;
    hide Done;
    var es := Deposits(ISIZE_MAX);
    RunThree(p, es, w, w, d, r0, r1, r2, r3);
    RunSnoc(p, 0, es + [w] + [w] + [d], w, SLOTS);
    hide Recent;
    RecentFour(ISIZE_MAX, w, w, d, w, false, 1, 6);
    RecentFour(ISIZE_MAX, w, w, d, w, true, 1, 11);
  }

  /** Clamping at the top refuses too much: of the deposits that cover a third
      withdrawal, half are lost to it. */
  lemma TopClampRefuses()
    ensures var p, prev := STINGY, Deposits(2 * ISIZE_MAX) + [Withdraw(0)] + [Withdraw(0)];
            && !Done(p, Run(p, 0, prev, SLOTS).0, Withdraw(0), SLOTS).1
            && var log := Run(p, 0, prev + [Withdraw(0)], SLOTS).1;
               p.reserve + p.depositAmount * Recent(log, true, 0, 5 * p.slot + 1)
                 >= p.withdrawAmount * (Recent(log, false, 0, 11 * p.slot) + 1)
  {
    var p, w := STINGY, Withdraw(0);
    var r0 := Fresh(0).(writer := ISIZE_MAX);
    var r1, r2 := Fresh(0), Fresh(0).(writer := -ISIZE_MAX);
    DepositsFill(p, 2 * ISIZE_MAX);
    FoldOfZeros(0, SLOTS);
    assert Fresh(0).buckets == Zeros(SLOTS);
    hide SatFold, Cleared, Zeros, Deposits, Run;
    assert Done(p, r0, w, SLOTS) == (r1, true);
    assert Done(p, r1, w, SLOTS) == (r2, true);
    assert !Done(p, r2, w, SLOTS).1;
    hide Done;
    var es := Deposits(2 * ISIZE_MAX);
    RunSnoc(p, 0, es, w, SLOTS);
    RunSnoc(p, 0, es + [w], w, SLOTS);
    RunSnoc(p, 0, es + [w] + [w], w, SLOTS);
    hide Recent;
    RecentTwo(2 * ISIZE_MAX, w, w, true, 0, 6);
    RecentTwo(2 * ISIZE_MAX, w, w, false, 0, 11);
  }

  lemma RecentTwo(n: nat, a: Op, b: Op, deposits: bool, now: nat, span: nat)
    requires now < span
    ensures Recent(Deposits(n) + [a] + [b], deposits, now, span)
            == (if deposits then n else 0) + One(a, deposits, now, span) + One(b, deposits, now, span)
  {
    hide Recent, Deposits;
    RecentDeposits(n, now, span);
    RecentSnoc(Deposits(n), a, deposits, now, span);
    RecentSnoc(Deposits(n) + [a], b, deposits, now, span);
  }

  lemma RecentFour(n: nat, a: Op, b: Op, c: Op, d: Op, deposits: bool, now: nat, span: nat)
    requires now < span
    ensures Recent(Deposits(n) + [a] + [b] + [c] + [d], deposits, now, span)
            == (if deposits then n else 0) + One(a, deposits, now, span) + One(b, deposits, now, span)
               + One(c, deposits, now, span) + One(d, deposits, now, span)
  {
    hide Recent, Deposits;
    RecentTwo(n, a, b, deposits, now, span);
    RecentSnoc(Deposits(n) + [a] + [b], c, deposits, now, span);
    RecentSnoc(Deposits(n) + [a] + [b] + [c], d, deposits, now, span);
  }
}
