/**
 * Reading a response body: the response object, which lets go of its request
 * handle at the end of the body and on a timeout, and why that is enough for
 * every read to be answered by its own completion.
 */
module Responses {
  import opened Prelude
  import opened Signals

  /** How one raced read ends. */
  datatype Read = Data(bytes: seq<byte>) | Eof | Failed | TimedOut

  datatype ChunkError = Consumed | ReadFailed | Timeout | TooLarge

  /** Position of the first outcome that is not data. */
  function DataRun(script: seq<Read>): (n: nat)
    ensures n <= |script|
    ensures forall i :: 0 <= i < n ==> script[i].Data?
    ensures n < |script| ==> !script[n].Data?
  {
    if script == [] || !script[0].Data? then 0 else 1 + DataRun(script[1..])
  }

  function Joined(script: seq<Read>): seq<byte> {
    if script == [] then [] else (if script[0].Data? then script[0].bytes else []) + Joined(script[1..])
  }

  lemma {:induction false} JoinedSnoc(script: seq<Read>, r: Read)
    ensures Joined(script + [r]) == Joined(script) + if r.Data? then r.bytes else []
  {
    if script == [] {
      assert script + [r] == [r] && [r][1..] == [];
    } else {
      assert (script + [r])[1..] == script[1..] + [r];
      JoinedSnoc(script[1..], r);
    }
  }

  class Response {
    var raw: bool    // the request handle is still held

    constructor ()
      ensures raw
    {
      raw := true;
    }

    method Chunk(read: Read) returns (r: Result<Option<seq<byte>>, ChunkError>)
      modifies this
      ensures r == if !old(raw) then Err(Consumed)
                   else match read
                     case Data(b) => Ok(Some(b))
                     case Eof => Ok(None)
                     case Failed => Err(ReadFailed)
                     case TimedOut => Err(Timeout)
      ensures raw <==> old(raw) && !read.Eof? && !read.TimedOut?
    {
      if !raw {
        return Err(Consumed);
      }
      match read {
        case Data(b) => r := Ok(Some(b));
        case Eof => raw := false; r := Ok(None);
        case Failed => r := Err(ReadFailed);
        case TimedOut => raw := false; r := Err(Timeout);
      }
    }

    /** The whole body: the data up to the end, in order and complete, or the
        reason there is no end.  A script that runs out is a failed read. */
    method CollectBody(script: seq<Read>) returns (r: Result<seq<byte>, ChunkError>)
      modifies this
      ensures var n := DataRun(script);
              r == if !old(raw) then Err(Consumed)
                   else if |Joined(script[..n])| > USIZE_MAX then Err(TooLarge)
                   else if n == |script| || script[n].Failed? then Err(ReadFailed)
                   else if script[n].TimedOut? then Err(Timeout)
                   else Ok(Joined(script[..n]))
      ensures r.Ok? ==> !raw
    {
      var body: seq<byte> := [];
      var i := 0;
      ghost var n := DataRun(script);
      assert script[..0] == [];
      while true
        invariant i <= n && raw == old(raw)
        invariant body == Joined(script[..i]) && |body| <= USIZE_MAX
        invariant i > 0 ==> raw
        decreases |script| - i
      {
        var read := if i < |script| then script[i] else Failed;
        var chunk := Chunk(read);
        match chunk {
          case Err(e) =>
            return Err(e);
          case Ok(None) =>
            raw := false;
            return Ok(body);
          case Ok(Some(bytes)) =>
            assert script[..i + 1] == script[..i] + [read];
            JoinedSnoc(script[..i], read);
            if |body| + |bytes| > USIZE_MAX {
              JoinedGrows(script, i + 1, n);
              return Err(TooLarge);
            }
            body := body + bytes;
            i := i + 1;
        }
      }
    }
  }

  lemma JoinedGrows(script: seq<Read>, i: nat, n: nat)
    requires i <= n <= |script|
    ensures |Joined(script[..i])| <= |Joined(script[..n])|
    decreases n - i
  {
    if i < n {
      JoinedGrows(script, i, n - 1);
      assert script[..n] == script[..n - 1] + [script[n - 1]];
      JoinedSnoc(script[..n - 1], script[n - 1]);
    }
  }

  // ----- Routing ----------------------------------------------------------

  /** One request and the operations started on it.  Operation k listens as the
      k-th future, and its completion carries the value k. */
  datatype State = State(
    slot: Slot<nat>,
    awaiting: Option<nat>,    // the operation whose await is running
    pending: set<nat>,        // started, and not completed by the system
    open: bool)               // the response still holds its handle

  datatype Move =
    | Start(ok: bool)         // listen, then start; a synchronous failure starts nothing
    | Complete(op: nat)       // the system's callback signals
    | Resolve                 // the await is polled to Ready
    | TimeOut                 // the deadline wins the race and the handle goes
    | Release                 // end of body
    | Abandon                 // the caller drops the read and keeps the response

  const START := State(Slot(None, []), None, {}, true)

  function Apply(s: State, m: Move): (t: Option<State>)
    requires s.slot.Valid()
    ensures t.Some? ==> t.value.slot.Valid()
  {
    match m
    case Start(ok) =>
      if s.open && s.awaiting.None? then
        var op := |s.slot.cells|;
        Some(State(Listened(s.slot), if ok then Some(op) else None, if ok then s.pending + {op} else s.pending, true))
      else None
    case Complete(op) =>
      if op in s.pending then Some(s.(slot := Signalled(s.slot, op), pending := s.pending - {op})) else None
    case Resolve =>
      if s.awaiting.Some? && s.awaiting.value < |s.slot.cells| && !s.slot.cells[s.awaiting.value].Waiting?
      then Some(s.(awaiting := None)) else None
    case TimeOut => if s.awaiting.Some? then Some(s.(awaiting := None, open := false)) else None
    case Release => if s.awaiting.None? then Some(s.(open := false)) else None
    case Abandon => if s.awaiting.Some? then Some(s.(awaiting := None)) else None
  }

  function Exec(s: State, run: seq<Move>): (t: Option<State>)
    requires s.slot.Valid()
    ensures t.Some? ==> t.value.slot.Valid()
    decreases |run|
  {
    if run == [] then Some(s)
    else match Apply(s, run[0])
      case None => None
      case Some(t) => Exec(t, run[1..])
  }

  /** Only the newest operation can be outstanding, its sender is the one
      installed, and nothing is outstanding where a new one may start. */
  ghost predicate Routed(s: State) {
    && s.slot.Valid()
    && (forall op :: op in s.pending ==> op + 1 == |s.slot.cells| && s.slot.sender == Some(op))
    && (s.open && s.awaiting.None? ==> s.pending == {})
    && (forall k :: 0 <= k < |s.slot.cells| && s.slot.cells[k].Sent? ==> s.slot.cells[k].value == k)
    && (s.awaiting.Some? ==> s.awaiting.value + 1 == |s.slot.cells|)
    && (s.awaiting.Some? && s.awaiting.value !in s.pending ==> s.slot.cells[s.awaiting.value] == Sent(s.awaiting.value))
    && (forall op :: op in s.pending ==> s.slot.cells[op] == Waiting)
  }

  lemma MoveKeepsRouted(s: State, m: Move)
    requires Routed(s) && m != Abandon && Apply(s, m).Some?
    ensures Routed(Apply(s, m).value)
  {
  }

  /** Every operation of the run is started with none outstanding. */
  ghost predicate StartsClean(s: State, run: seq<Move>)
    requires s.slot.Valid()
    decreases |run|
  {
    run != [] && Apply(s, run[0]).Some? ==>
      (run[0] == Start(true) ==> s.pending == {}) && StartsClean(Apply(s, run[0]).value, run[1..])
  }

  /** Where every read is driven to its end or to a timeout, the release of the
      handle on a timeout keeps all starts clean. */
  lemma {:induction false} DrivenReadsStartClean(s: State, run: seq<Move>)
    requires Routed(s) && Abandon !in run
    ensures StartsClean(s, run)
    decreases |run|
  {
    if run != [] && Apply(s, run[0]).Some? {
      assert run[0] in run && forall m :: m in run[1..] ==> m in run;
      MoveKeepsRouted(s, run[0]);
      DrivenReadsStartClean(Apply(s, run[0]).value, run[1..]);
    }
  }

  /** While operation `k` is awaited it is the newest, and either outstanding
      alone, with its sender installed, or answered by its own event. */
  ghost predicate OnTrack(s: State, k: nat) {
    && s.slot.Valid()
    && k < |s.slot.cells|
    && (s.awaiting == Some(k) ==>
          && k + 1 == |s.slot.cells|
          && if s.pending == {} then s.slot.cells[k] == Sent(k)
             else s.pending == {k} && s.slot == Slot(Some(k), s.slot.cells) && s.slot.cells[k] == Waiting)
  }

  lemma MoveKeepsTrack(s: State, m: Move, k: nat)
    requires OnTrack(s, k) && Apply(s, m).Some?
    ensures OnTrack(Apply(s, m).value, k)
  {
    if m.Complete? && s.awaiting == Some(k) {
      assert s.pending - {k} == {};
    }
  }

  lemma {:induction false} RunKeepsTrack(s: State, run: seq<Move>, k: nat)
    requires OnTrack(s, k) && Exec(s, run).Some?
    ensures OnTrack(Exec(s, run).value, k)
    decreases |run|
  {
    if run != [] {
      MoveKeepsTrack(s, run[0], k);
      hide Apply, OnTrack;
      RunKeepsTrack(Apply(s, run[0]).value, run[1..], k);
    }
  }

  lemma CleanStartIsOnTrack(s: State)
    requires s.slot.Valid() && s.pending == {} && Apply(s, Start(true)).Some?
    ensures OnTrack(Apply(s, Start(true)).value, |s.slot.cells|)
  {
  }

  lemma {:induction false} RunIsOnTrack(s: State, run: seq<Move>)
    requires s.slot.Valid() && StartsClean(s, run) && Exec(s, run).Some?
    requires s.awaiting.Some? ==> OnTrack(s, s.awaiting.value)
    ensures var t := Exec(s, run).value; t.awaiting.Some? ==> OnTrack(t, t.awaiting.value)
    decreases |run|
  {
    if run != [] {
      var next := Apply(s, run[0]).value;
      if run[0] == Start(true) {
        CleanStartIsOnTrack(s);
      } else if s.awaiting.Some? {
        MoveKeepsTrack(s, run[0], s.awaiting.value);
      }
      hide OnTrack;
      RunIsOnTrack(next, run[1..]);
    }
  }

  /** As long as operations start clean, an await that becomes ready has its own
      operation's event, and is never cancelled, abandoned reads or not. */
  lemma AwaitGetsItsOwnEvent(run: seq<Move>, s: State)
    requires StartsClean(START, run) && Exec(START, run) == Some(s)
    requires s.awaiting.Some? && Apply(s, Resolve).Some?
    ensures s.slot.cells[s.awaiting.value] == Sent(s.awaiting.value)
  {
    RunIsOnTrack(START, run);
  }

  /** Whatever follows, a ready await of operation `k` has its own event. */
  ghost predicate AlwaysItsOwn(s: State, k: nat)
    requires s.slot.Valid()
  {
    forall run, t :: Exec(s, run) == Some(t) && t.awaiting == Some(k) && Apply(t, Resolve).Some? ==>
      t.slot.cells[k] == Sent(k)
  }

  lemma {:induction false} PendingIsOld(s: State, run: seq<Move>)
    requires s.slot.Valid() && Exec(s, run).Some?
    requires forall op :: op in s.pending ==> op < |s.slot.cells|
    ensures var t := Exec(s, run).value; forall op :: op in t.pending ==> op < |t.slot.cells|
    decreases |run|
  {
    if run != [] {
      PendingIsOld(Apply(s, run[0]).value, run[1..]);
    }
  }

  /** Routing, exactly, at the start of a read: its await is certain to be
      answered by its own event if and only if no operation is outstanding.
      `before` may abandon reads as it likes. */
  lemma ReadIsRoutedExactly(before: seq<Move>, s: State)
    requires Exec(START, before) == Some(s) && Apply(s, Start(true)).Some?
    ensures AlwaysItsOwn(Apply(s, Start(true)).value, |s.slot.cells|) <==> s.pending == {}
  {
    var t, k := Apply(s, Start(true)).value, |s.slot.cells|;
    if s.pending == {} {
      CleanStartIsOnTrack(s);
      hide Apply;
      forall run, u | Exec(t, run) == Some(u) && u.awaiting == Some(k) && Apply(u, Resolve).Some?
        ensures u.slot.cells[k] == Sent(k)
      {
        RunKeepsTrack(t, run, k);
        ReadyOnTrack(u, k);
      }
    } else {
      PendingIsOld(START, before);
      var op :| op in s.pending;
      var u := Apply(t, Complete(op)).value;
      assert [Complete(op)][1..] == [];
      assert Exec(t, [Complete(op)]) == Some(u);
      assert u.slot.cells[k] == Sent(op);
    }
  }

  lemma ReadyOnTrack(s: State, k: nat)
    requires OnTrack(s, k) && s.awaiting == Some(k) && Apply(s, Resolve).Some?
    ensures s.slot.cells[k] == Sent(k)
  {
  }

  /** A response that has let go of its handle, at the end of the body or on a
      timeout, never starts another operation. */
  lemma {:induction false} ReleasedForGood(s: State, run: seq<Move>)
    requires s.slot.Valid() && !s.open && Exec(s, run).Some?
    ensures !Exec(s, run).value.open && forall i :: 0 <= i < |run| ==> !run[i].Start?
    decreases |run|
  {
    if run != [] {
      ReleasedForGood(Apply(s, run[0]).value, run[1..]);
      assert forall i :: 1 <= i < |run| ==> run[i] == run[1..][i - 1];
    }
  }

  lemma EndsRelease(s: State)
    requires s.slot.Valid()
    ensures s.awaiting.Some? ==> Apply(s, TimeOut).Some? && !Apply(s, TimeOut).value.open
    ensures s.awaiting.None? ==> Apply(s, Release).Some? && !Apply(s, Release).value.open
  {
  }

  const CROSSED := State(Slot(None, [Cancelled, Sent(0)]), Some(1), {1}, true)

  /** Nothing prevents a caller from dropping a read, whose operation goes on,
      and starting another: the handle is only released at the end of the body
      and on a timeout.  The second await is then ready with the first one's event. */
  lemma AbandonedReadCrosses()
    ensures Exec(START, [Start(true), Abandon, Start(true), Complete(0)]) == Some(CROSSED)
    ensures Apply(CROSSED, Resolve).Some?
  {
    var a := State(Slot(Some(0), [Waiting]), Some(0), {0}, true);
    assert START.pending + {0} == {0} && Listened(START.slot).cells == [Waiting];
    assert Apply(START, Start(true)) == Some(a);
    var b := a.(awaiting := None);
    assert Apply(a, Abandon) == Some(b);
    var c := State(Slot(Some(1), [Cancelled, Waiting]), Some(1), {0, 1}, true);
    assert Listened(b.slot).cells == [Cancelled, Waiting] && {0} + {1} == {0, 1};
    assert Apply(b, Start(true)) == Some(c);
    assert {0, 1} - {0} == {1} && c.slot.cells[1 := Sent(0)] == [Cancelled, Sent(0)];
    assert Apply(c, Complete(0)) == Some(CROSSED);
    var rest := [Start(true), Complete(0)];
    assert [Start(true), Abandon, Start(true), Complete(0)][1..] == [Abandon] + rest;
    assert ([Abandon] + rest)[1..] == rest && rest[1..] == [Complete(0)] && [Complete(0)][1..] == [];
    assert Exec(c, [Complete(0)]) == Some(CROSSED);
    assert Exec(b, rest) == Some(CROSSED);
    assert Exec(a, [Abandon] + rest) == Some(CROSSED);
  }
}
