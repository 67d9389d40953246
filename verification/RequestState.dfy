/**
 * The per-request state that WinHTTP callbacks share with the thread that
 * drops the request handle.  The value functions say what one critical
 * section does; `RequestState` is the object whose methods do it in place;
 * module CloseDrain runs the same functions under every interleaving.
 */
module RequestStates {
  import opened Prelude

  /** The pair behind the close/drain mutex. */
  datatype CloseState = CloseState(closed: bool, active: nat)

  /** Why a callback gave up on the request, as an opaque tag. */
  type Reason = nat

  /** `Aborted` is sticky: taking the reason leaves `Aborted(None)`. */
  datatype Abort = NotAborted | Aborted(reason: Option<Reason>)

  /** What `wait_closed_and_idle` waits for. */
  predicate Drained(c: CloseState) {
    c.closed && c.active == 0
  }

  /** None when the checked increment panics; the caller's `catch_unwind`
      then ends the callback with nothing changed. */
  function Entered(c: CloseState): Option<CloseState> {
    if c.active == USIZE_MAX then None else Some(c.(active := c.active + 1))
  }

  /** A duplicate exit would be ignored; `CloseDrain.GuardsNeverUnderflow`
      shows that it cannot happen. */
  function Exited(c: CloseState): CloseState {
    if c.active == 0 then c else c.(active := c.active - 1)
  }

  function MarkedFinal(c: CloseState): CloseState {
    c.(closed := true)
  }

  /** First caller wins. */
  function Stashed(a: Abort, reason: Reason): Abort {
    if a.Aborted? then a else Aborted(Some(reason))
  }

  function Taken(a: Abort): Abort {
    if a.Aborted? then Aborted(None) else a
  }

  /** Scheme and host are kept lower-cased, so equality ignores ASCII case. */
  datatype Origin = Origin(scheme: string, host: string, port: nat)

  datatype Url = Url(scheme: string, host: string, port: nat)

  datatype Header = Header(name: string, value: string)

  function OriginOf(url: Url): Origin {
    Origin(Lower(url.scheme), Lower(url.host), url.port)
  }

  const SENSITIVE: seq<string> :=
    ["Authorization", "Cookie", "Cookie2", "Proxy-Authorization", "Proxy-Authenticate", "WWW-Authenticate"]

  /** Header names compare without regard to ASCII case. */
  predicate Named(h: Header, names: seq<string>) {
    exists i :: 0 <= i < |names| && Lower(h.name) == Lower(names[i])
  }

  /** The headers whose name is not in `names`, in their order. */
  function Dropping(hs: seq<Header>, names: seq<string>): seq<Header> {
    if hs == [] then []
    else if Named(hs[0], names) then Dropping(hs[1..], names)
    else [hs[0]] + Dropping(hs[1..], names)
  }

  /** What one STATUS_REDIRECT callback finds: a target that does not parse, or
      a target and the position of the first removal that WinHTTP refuses
      (none, if that is past the list). */
  datatype Hop =
    | Unparsable(reason: Reason)
    | Target(url: Url, failAt: nat, reason: Reason)

  /** The part of the state that redirects work on; the headers are those
      WinHTTP is going to send. */
  datatype RedirectView = RedirectView(origin: Origin, headers: seq<Header>, abort: Abort)

  function Redirected(v: RedirectView, hop: Hop): RedirectView {
    match hop
    case Unparsable(reason) => v.(abort := Stashed(v.abort, reason))
    case Target(url, failAt, reason) =>
      if v.origin == OriginOf(url) then v
      else if failAt < |SENSITIVE| then
        v.(headers := Dropping(v.headers, SENSITIVE[..failAt]), abort := Stashed(v.abort, reason))
      else v.(headers := Dropping(v.headers, SENSITIVE), origin := OriginOf(url))
  }

  /** Two URLs of one site: the same scheme and host, ASCII case aside, and port. */
  ghost predicate SameSite(a: Url, b: Url) {
    SameLetters(a.scheme, b.scheme) && SameLetters(a.host, b.host) && a.port == b.port
  }

  lemma OriginIsSite(a: Url, b: Url)
    ensures OriginOf(a) == OriginOf(b) <==> SameSite(a, b)
  {
    LowerIgnoresCase(a.scheme, b.scheme);
    LowerIgnoresCase(a.host, b.host);
  }

  lemma {:induction false} DroppingNothing(hs: seq<Header>)
    ensures Dropping(hs, []) == hs
  {
    if hs != [] {
      DroppingNothing(hs[1..]);
    }
  }

  /** Removing names one after the other is removing them all at once. */
  lemma {:induction false} DroppingTwice(hs: seq<Header>, a: seq<string>, b: seq<string>)
    ensures Dropping(Dropping(hs, a), b) == Dropping(hs, a + b)
  {
    if hs != [] {
      DroppingTwice(hs[1..], a, b);
      assert forall i :: 0 <= i < |a| ==> a[i] == (a + b)[i];
      assert forall i :: 0 <= i < |b| ==> b[i] == (a + b)[|a| + i];
      assert Named(hs[0], a + b) <==> Named(hs[0], a) || Named(hs[0], b);
      var kept := Dropping(hs[1..], a);
      assert ([hs[0]] + kept)[1..] == kept;
    }
  }

  class RequestState {
    var closed: bool
    var activeCallbacks: nat
    var callbackAbort: Abort
    var currentOrigin: Origin
    var requestHeaders: seq<Header>

    function RedirectsView(): RedirectView
      reads this
    {
      RedirectView(currentOrigin, requestHeaders, callbackAbort)
    }

    function CloseView(): CloseState
      reads this
    {
      CloseState(closed, activeCallbacks)
    }

    constructor (origin: Origin, headers: seq<Header>)
      ensures CloseView() == CloseState(false, 0)
      ensures RedirectsView() == RedirectView(origin, headers, NotAborted)
    {
      closed := false;
      activeCallbacks := 0;
      callbackAbort := NotAborted;
      currentOrigin := origin;
      requestHeaders := headers;
    }

    method EnterCallback() returns (panicked: bool)
      modifies this`activeCallbacks
      ensures panicked <==> old(activeCallbacks) == USIZE_MAX
      ensures activeCallbacks == old(activeCallbacks) + if panicked then 0 else 1
      ensures panicked <==> Entered(old(CloseView())) == None
      ensures CloseView() == if panicked then old(CloseView()) else Entered(old(CloseView())).value
    {
      panicked := activeCallbacks == USIZE_MAX;
      if !panicked {
        activeCallbacks := activeCallbacks + 1;
      }
    }

    /** Drop of the callback guard; `notify` reports a `notify_all`. */
    method ExitCallback() returns (notify: bool)
      modifies this`activeCallbacks
      ensures CloseView() == Exited(old(CloseView()))
      ensures notify <==> old(activeCallbacks) > 0 && Drained(CloseView())
    {
      notify := false;
      if activeCallbacks > 0 {
        activeCallbacks := activeCallbacks - 1;
        notify := closed && activeCallbacks == 0;
      }
    }

    method MarkFinalCallbackSeen() returns (notify: bool)
      modifies this`closed
      ensures CloseView() == MarkedFinal(old(CloseView()))
      ensures notify <==> Drained(CloseView())
    {
      closed := true;
      notify := activeCallbacks == 0;
    }

    /** The locked half of `abort_from_callback`; the caller closes the
        handle, after the lock is released, exactly when `mustClose`. */
    method StashAbort(reason: Reason) returns (mustClose: bool)
      modifies this`callbackAbort
      ensures callbackAbort == Stashed(old(callbackAbort), reason)
      ensures mustClose <==> old(callbackAbort) == NotAborted
    {
      mustClose := callbackAbort.NotAborted?;
      if mustClose {
        callbackAbort := Aborted(Some(reason));
      }
    }

    method TakeReason() returns (reason: Option<Reason>)
      modifies this`callbackAbort
      ensures callbackAbort == Taken(old(callbackAbort))
      ensures reason == match old(callbackAbort)
                        case NotAborted => None
                        case Aborted(r) => r
    {
      reason := None;
      match callbackAbort {
        case NotAborted =>
        case Aborted(r) =>
          reason := r;
          callbackAbort := Aborted(None);
      }
    }

    /** The STATUS_REDIRECT arm of the callback. */
    method OnRedirect(hop: Hop) returns (mustClose: bool)
      modifies this`callbackAbort, this`currentOrigin, this`requestHeaders
      ensures RedirectsView() == Redirected(old(RedirectsView()), hop)
      ensures mustClose <==> old(callbackAbort) == NotAborted && callbackAbort.Aborted?
    {
      mustClose := false;
      match hop {
        case Unparsable(reason) =>
          mustClose := StashAbort(reason);
        case Target(url, failAt, reason) =>
          var newOrigin := OriginOf(url);
          if currentOrigin == newOrigin {
            return;
          }
          var i := 0;
          DroppingNothing(requestHeaders);
          assert SENSITIVE[..0] == [];
          while i < |SENSITIVE|
            invariant 0 <= i <= |SENSITIVE| && i <= failAt
            invariant requestHeaders == Dropping(old(requestHeaders), SENSITIVE[..i])
            invariant callbackAbort == old(callbackAbort) && currentOrigin == old(currentOrigin)
          {
            if i == failAt {
              mustClose := StashAbort(reason);
              return;
            }
            DroppingTwice(old(requestHeaders), SENSITIVE[..i], [SENSITIVE[i]]);
            assert SENSITIVE[..i] + [SENSITIVE[i]] == SENSITIVE[..i + 1];
            requestHeaders := Dropping(requestHeaders, [SENSITIVE[i]]);
            i := i + 1;
          }
          assert SENSITIVE[..i] == SENSITIVE;
          currentOrigin := newOrigin;
      }
    }
  }
}
