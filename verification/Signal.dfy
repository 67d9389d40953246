/** The reusable one-shot channel between callbacks and futures, under every interleaving. */
module Signals {
  import opened Prelude

  /** What a future finds: nothing yet, the value sent to it, or a dropped sender. */
  datatype Cell<T> = Waiting | Sent(value: T) | Cancelled

  /** `sender` is the number of the future whose sender is installed. */
  datatype Slot<T> = Slot(sender: Option<nat>, cells: seq<Cell<T>>) {
    predicate Valid() {
      sender.Some? ==> sender.value < |cells|
    }
  }

  function Dropped<T>(s: Slot<T>): (t: Slot<T>)
    requires s.Valid()
    ensures t.Valid()
  {
    if s.sender.Some? then Slot(None, s.cells[s.sender.value := Cancelled]) else s
  }

  function Listened<T>(s: Slot<T>): (t: Slot<T>)
    requires s.Valid()
    ensures t.Valid()
  {
    Slot(Some(|s.cells|), Dropped(s).cells + [Waiting])
  }

  function Signalled<T>(s: Slot<T>, value: T): (t: Slot<T>)
    requires s.Valid()
    ensures t.Valid()
  {
    if s.sender.Some? then Slot(None, s.cells[s.sender.value := Sent(value)]) else s
  }

  // ----- Interleavings ----------------------------------------------------

  /** The slot, and the signals on their way: a signal first takes the sender
      under the slot's lock and sends through it after the lock is released.
      `taken` has the value that is on its way to each future. */
  datatype Channel<T> = Channel(slot: Slot<T>, taken: map<nat, T>) {
    predicate Valid() {
      && slot.Valid()
      && (forall k :: k in taken ==> k < |slot.cells|)
      && (slot.sender.Some? ==> slot.sender.value !in taken)
    }
  }

  /** Events of any thread, in the order in which they happen.  Polling or
      dropping a future changes nothing; Free drops the signal. */
  datatype Event<T> =
    | Listen
    | Take(value: T)          // a signal takes the installed sender, if there is one
    | Send(future: nat)       // and sends
    | Free
    | Poll(future: nat)
    | DropFuture(future: nat)

  function Step<T>(s: Channel<T>, e: Event<T>): (t: Channel<T>)
    requires s.Valid()
    ensures t.Valid()
  {
    match e
    case Listen => s.(slot := Listened(s.slot))
    case Take(v) =>
      if s.slot.sender.Some?
      then Channel(s.slot.(sender := None), s.taken[s.slot.sender.value := v])
      else s
    case Send(k) =>
      if k in s.taken
      then Channel(s.slot.(cells := s.slot.cells[k := Sent(s.taken[k])]), s.taken - {k})
      else s
    case Free => s.(slot := Dropped(s.slot))
    case Poll(_) => s
    case DropFuture(_) => s
  }

  function After<T>(s: Channel<T>, events: seq<Event<T>>): (t: Channel<T>)
    requires s.Valid()
    ensures t.Valid()
    decreases |events|
  {
    if events == [] then s else After(Step(s, events[0]), events[1..])
  }

  lemma {:induction false} AfterSnoc<T>(s: Channel<T>, events: seq<Event<T>>, e: Event<T>)
    requires s.Valid()
    ensures After(s, events + [e]) == Step(After(s, events), e)
    decreases |events|
  {
    if events == [] {
      assert (events + [e])[1..] == [];
    } else {
      assert (events + [e])[1..] == events[1..] + [e];
      AfterSnoc(Step(s, events[0]), events[1..], e);
    }
  }

  /** What future `k` finds of a value that is on its way to it. */
  ghost function Landed<T>(later: seq<Event<T>>, k: nat, v: T): Cell<T> {
    if Send(k) in later then Sent(v) else Waiting
  }

  /** What becomes of future `k`, given everything that happens after its
      listen: the first take, listen or drop decides, and a take needs its send. */
  ghost function Fate<T>(later: seq<Event<T>>, k: nat): Cell<T> {
    if later == [] then Waiting
    else match later[0]
      case Take(v) => Landed(later[1..], k, v)
      case Listen => Cancelled
      case Free => Cancelled
      case _ => Fate(later[1..], k)
  }

  /** The fates of all the futures that the events create, in order, numbered
      from `n`. */
  ghost function Fates<T>(events: seq<Event<T>>, n: nat): seq<Cell<T>> {
    if events == [] then []
    else if events[0].Listen? then [Fate(events[1..], n)] + Fates(events[1..], n + 1)
    else Fates(events[1..], n)
  }

  /** What becomes of the futures that `s` has already. */
  ghost function OldFates<T>(s: Channel<T>, events: seq<Event<T>>): seq<Cell<T>> {
    seq(|s.slot.cells|, k requires 0 <= k < |s.slot.cells| =>
      if s.slot.sender == Some(k) then Fate(events, k)
      else if k in s.taken then Landed(events, k, s.taken[k])
      else s.slot.cells[k])
  }

  /** Futures whose sender is installed or taken are waiting. */
  predicate Pending<T>(s: Channel<T>) {
    forall k :: 0 <= k < |s.slot.cells| && (s.slot.sender == Some(k) || k in s.taken) ==> s.slot.cells[k].Waiting?
  }

  lemma OneStepFates<T>(s: Channel<T>, e: Event<T>, later: seq<Event<T>>)
    requires s.Valid() && Pending(s)
    ensures Pending(Step(s, e)) && |Step(s, e).slot.cells| == |s.slot.cells| + if e.Listen? then 1 else 0
    ensures OldFates(Step(s, e), later)
            == OldFates(s, [e] + later) + if e.Listen? then [Fate(later, |s.slot.cells|)] else []
  {
    var t, n := Step(s, e), |s.slot.cells|;
    assert ([e] + later)[1..] == later;
    forall k | 0 <= k < n ensures OldFates(t, later)[k] == OldFates(s, [e] + later)[k] {
      assert Send(k) in [e] + later <==> e == Send(k) || Send(k) in later;
    }
  }

  lemma FateStep<T>(e: Event<T>, later: seq<Event<T>>, n: nat)
    ensures Fates([e] + later, n)
            == (if e.Listen? then [Fate(later, n)] else []) + Fates(later, if e.Listen? then n + 1 else n)
  {
    assert ([e] + later)[1..] == later;
  }

  lemma {:induction false} AfterIsFates<T>(s: Channel<T>, events: seq<Event<T>>)
    requires s.Valid() && Pending(s)
    ensures After(s, events).slot.cells == OldFates(s, events) + Fates(events, |s.slot.cells|)
    decreases |events|
  {
    if events == [] {
      assert OldFates(s, []) == s.slot.cells;
    } else {
      var e, later := events[0], events[1..];
      assert [e] + later == events;
      OneStepFates(s, e, later);
      hide OldFates, Pending, Fate, Step;
      AfterIsFates(Step(s, e), later);
      FateStep(e, later, |s.slot.cells|);
      hide Fates;
    }
  }

  // ----- Fates by position ------------------------------------------------

  /** Only these events change who is listening. */
  predicate Touches<T>(e: Event<T>) {
    e.Listen? || e.Take? || e.Free?
  }

  function Listens<T>(events: seq<Event<T>>): nat {
    if events == [] then 0 else (if events[0].Listen? then 1 else 0) + Listens(events[1..])
  }

  /** Where future `k` was created. */
  function ListenOf<T>(events: seq<Event<T>>, k: nat): (i: nat)
    requires k < Listens(events)
    ensures i < |events| && events[i].Listen? && Listens(events[..i]) == k
  {
    if events[0].Listen? && k == 0 then 0
    else
      var i := 1 + ListenOf(events[1..], if events[0].Listen? then k - 1 else k);
      assert events[..i][1..] == events[1..][..i - 1];
      i
  }

  /** `j` is the first event after `i` that touches the slot. */
  ghost predicate FirstAfter<T>(events: seq<Event<T>>, i: nat, j: nat) {
    i < j < |events| && Touches(events[j]) && forall m :: i < m < j ==> !Touches(events[m])
  }

  /** The first thing to happen to the slot after event `i` is that the signal
      of `v` takes the sender, and that signal has been sent to future `k`. */
  ghost predicate IsSent<T>(events: seq<Event<T>>, i: nat, k: nat, v: T) {
    exists j: nat :: FirstAfter(events, i, j) && events[j] == Take(v) && Send(k) in events[j + 1..]
  }

  /** The first thing to happen to the slot after event `i` is another listen,
      or the end of the signal. */
  ghost predicate IsLost<T>(events: seq<Event<T>>, i: nat) {
    exists j: nat :: FirstAfter(events, i, j) && !events[j].Take?
  }

  lemma FirstIsUnique<T>(events: seq<Event<T>>, i: nat, j: nat)
    requires FirstAfter(events, i, j)
    ensures forall m: nat :: FirstAfter(events, i, m) ==> m == j
  {
  }

  lemma {:induction false} FateByPosition<T>(events: seq<Event<T>>, i: nat, j: nat, k: nat)
    requires i < j <= |events| && forall m :: i < m < j ==> !Touches(events[m])
    ensures forall v :: Fate(events[j..], k) == Sent(v) <==> IsSent(events, i, k, v)
    ensures Fate(events[j..], k) == Cancelled <==> IsLost(events, i)
    decreases |events| - j
  {
    if j < |events| {
      assert events[j..][1..] == events[j + 1..];
      if Touches(events[j]) {
        FirstIsUnique(events, i, j);
      } else {
        FateByPosition(events, i, j + 1, k);
      }
    }
  }

  lemma {:induction false} FateOfFuture<T>(events: seq<Event<T>>, k: nat, n: nat)
    requires k < Listens(events)
    ensures |Fates(events, n)| == Listens(events)
    ensures Fates(events, n)[k] == Fate(events[ListenOf(events, k) + 1..], n + k)
  {
    FatesCount(events, n);
    if !(events[0].Listen? && k == 0) {
      var first := events[0].Listen?;
      var l := if first then k - 1 else k;
      FateOfFuture(events[1..], l, if first then n + 1 else n);
      assert events[1..][ListenOf(events[1..], l) + 1..] == events[ListenOf(events, k) + 1..];
    }
  }

  lemma {:induction false} FatesCount<T>(events: seq<Event<T>>, n: nat)
    ensures |Fates(events, n)| == Listens(events)
  {
    if events != [] {
      FatesCount(events[1..], if events[0].Listen? then n + 1 else n);
    }
  }

  function Start<T>(): (s: Channel<T>)
    ensures s.Valid() && Pending(s)
  {
    Channel(Slot(None, []), map[])
  }

  lemma AllFates<T>(events: seq<Event<T>>)
    ensures After(Start(), events).slot.cells == Fates(events, 0)
  {
    AfterIsFates(Start(), events);
    assert OldFates(Start(), events) == [];
  }

  /** Under every interleaving there is one future for each listen.  The k-th
      holds v exactly when the signal of v was the first to come after its
      listen, before the next listen or the end of the signal, and has been
      sent; it is cancelled exactly when one of those came first. */
  lemma EveryFutureMeetsItsFate<T>(events: seq<Event<T>>, k: nat)
    requires k < Listens(events)
    ensures var cells, i := After(Start(), events).slot.cells, ListenOf(events, k);
            && |cells| == Listens(events)
            && (forall v :: cells[k] == Sent(v) <==> IsSent(events, i, k, v))
            && (cells[k] == Cancelled <==> IsLost(events, i))
  {
    hide *;
    AllFates(events);
    FateOfFuture(events, k, 0);
    FateByPosition(events, ListenOf(events, k), ListenOf(events, k) + 1, k);
  }

  // ----- The object -------------------------------------------------------

  class CompletionSignal<T> {
    var sender: Option<nat>
    var cells: seq<Cell<T>>              // one for every future handed out
    ghost var taken: map<nat, T>         // what threads that have taken a sender are about to send
    ghost var events: seq<Event<T>>      // everything that happened so far

    ghost function View(): Channel<T>
      reads this
    {
      Channel(Slot(sender, cells), taken)
    }

    ghost predicate Valid()
      reads this
    {
      View() == After(Start(), events)
    }

    constructor ()
      ensures Valid() && events == []
    {
      sender := None;
      cells := [];
      taken := map[];
      events := [];
    }

    method Listen() returns (future: nat)
      requires Valid()
      modifies this
      ensures Valid() && events == old(events) + [Event.Listen]
      ensures View() == Step(old(View()), Event.Listen)
      ensures future == |old(cells)| && cells[future] == Waiting
    {
      AfterSnoc(Start(), events, Event.Listen);
      future := |cells|;
      var replaced := sender;
      sender := Some(future);
      if replaced.Some? {
        cells := cells[replaced.value := Cancelled];
      }
      cells := cells + [Waiting];
      events := events + [Event.Listen];
    }

    /** The locked half of `signal`. */
    method TakeSender(ghost value: T) returns (future: Option<nat>)
      requires Valid()
      modifies this
      ensures Valid() && events == old(events) + [Event.Take(value)]
      ensures View() == Step(old(View()), Event.Take(value))
      ensures future == old(sender) && (future.Some? ==> future.value in taken && taken[future.value] == value)
    {
      AfterSnoc(Start(), events, Event.Take(value));
      future := sender;
      sender := None;
      if future.Some? {
        taken := taken[future.value := value];
      }
      events := events + [Event.Take(value)];
    }

    /** The other half, which any other event may precede. */
    method SendTaken(future: Option<nat>, value: T)
      requires Valid() && (future.Some? ==> future.value in taken && taken[future.value] == value)
      modifies this
      ensures Valid() && events == old(events) + if future.Some? then [Event.Send(future.value)] else []
      ensures future.Some? ==> View() == Step(old(View()), Event.Send(future.value))
      ensures future.None? ==> View() == old(View())
    {
      if future.Some? {
        AfterSnoc(Start(), events, Event.Send(future.value));
        cells := cells[future.value := Sent(value)];
        taken := taken - {future.value};
        events := events + [Event.Send(future.value)];
      } else {
        assert events + [] == events;
      }
    }

    /** A signal that nothing comes between. */
    method Signal(value: T)
      requires Valid()
      modifies this
      ensures Valid()
      ensures View().slot == Signalled(old(View()).slot, value) && View().taken == old(View()).taken
    {
      var future := TakeSender(value);
      SendTaken(future, value);
    }

    /** Ready with a value exactly when the signal of that value was the first to
        come since the future's listen and has been sent, ready with an error
        exactly when another listen came first, and pending otherwise. */
    method Poll(future: nat) returns (r: Option<Result<T, ()>>)
      requires Valid() && future < Listens(events)
      ensures forall v :: r == Some(Ok(v)) <==> IsSent(events, ListenOf(events, future), future, v)
      ensures r == Some(Err(())) <==> IsLost(events, ListenOf(events, future))
    {
      EveryFutureMeetsItsFate(events, future);
      match cells[future] {
        case Waiting => r := None;
        case Sent(v) => r := Some(Ok(v));
        case Cancelled => r := Some(Err(()));
      }
    }
  }
}
