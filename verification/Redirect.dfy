/** What whole redirect chains do to the tracked origin, the headers and the abort flag. */
module Redirects {
  import opened Prelude
  import opened RequestStates

  /** The view after all the hops of a chain. */
  function Chain(v: RedirectView, hops: seq<Hop>): RedirectView
    decreases |hops|
  {
    if hops == [] then v else Chain(Redirected(v, hops[0]), hops[1..])
  }

  /** Where hop `i` comes from when no earlier hop was unparsable. */
  function From(origin: Origin, hops: seq<Hop>, i: nat): Origin
    requires i <= |hops| && forall j :: 0 <= j < i ==> hops[j].Target?
  {
    if i == 0 then origin else OriginOf(hops[i - 1].url)
  }

  ghost predicate Crosses(origin: Origin, hops: seq<Hop>, i: nat)
    requires i < |hops| && forall j :: 0 <= j <= i ==> hops[j].Target?
  {
    OriginOf(hops[i].url) != From(origin, hops, i)
  }

  /** Hop `i` is the first that forces an abort: every hop before it has a
      parsable target and was stripped where it crossed origins, and this one
      does not parse, or crosses and cannot be stripped. */
  ghost predicate AbortsAt(origin: Origin, hops: seq<Hop>, i: nat) {
    && i < |hops|
    && (forall j :: 0 <= j < i ==> hops[j].Target?)
    && (forall j :: 0 <= j < i && Crosses(origin, hops, j) ==> hops[j].failAt >= |SENSITIVE|)
    && (hops[i].Target? ==> Crosses(origin, hops, i) && hops[i].failAt < |SENSITIVE|)
  }

  lemma {:induction false} AbortPersists(v: RedirectView, hops: seq<Hop>)
    requires v.abort.Aborted?
    ensures Chain(v, hops).abort == v.abort
    decreases |hops|
  {
    if hops != [] {
      AbortPersists(Redirected(v, hops[0]), hops[1..]);
    }
  }

  lemma ShiftAborts(origin: Origin, hops: seq<Hop>, i: nat)
    requires hops != [] && hops[0].Target? && (Crosses(origin, hops, 0) ==> hops[0].failAt >= |SENSITIVE|)
    ensures AbortsAt(OriginOf(hops[0].url), hops[1..], i) <==> AbortsAt(origin, hops, i + 1)
  {
    var rest := hops[1..];
    var next := OriginOf(hops[0].url);
    assert forall j :: 0 <= j < |rest| ==> rest[j] == hops[j + 1];
    if i < |rest| {
      if AbortsAt(origin, hops, i + 1) {
        forall j | 0 <= j < i ensures rest[j].Target? && (Crosses(next, rest, j) ==> rest[j].failAt >= |SENSITIVE|) {
          assert hops[j + 1].Target?;
          assert forall l :: 0 <= l <= j + 1 ==> hops[l].Target?;
          assert Crosses(next, rest, j) <==> Crosses(origin, hops, j + 1);
        }
      }
      if AbortsAt(next, rest, i) {
        forall j | 0 <= j < i + 1 ensures hops[j].Target? {
          if j > 0 { assert rest[j - 1].Target?; }
        }
        forall j | 0 <= j < i + 1 && Crosses(origin, hops, j) ensures hops[j].failAt >= |SENSITIVE| {
          if j > 0 { assert Crosses(next, rest, j - 1); }
        }
      }
    }
  }

  /** The abort flag is exactly: some hop is the first that forces an abort;
      and the stored reason is that hop's. */
  lemma {:induction false} AbortIsFirstBadHop(v: RedirectView, hops: seq<Hop>)
    requires v.abort == NotAborted
    ensures Chain(v, hops).abort == NotAborted <==> forall i: nat :: !AbortsAt(v.origin, hops, i)
    ensures forall i: nat :: AbortsAt(v.origin, hops, i) ==> Chain(v, hops).abort == Aborted(Some(hops[i].reason))
    decreases |hops|
  {
    if hops == [] {
    } else if AbortsAt(v.origin, hops, 0) {
      AbortPersists(Redirected(v, hops[0]), hops[1..]);
      assert forall i: nat :: i > 0 ==> !AbortsAt(v.origin, hops, i);
    } else {
      var next := Redirected(v, hops[0]);
      AbortIsFirstBadHop(next, hops[1..]);
      forall i: nat ensures AbortsAt(next.origin, hops[1..], i) <==> AbortsAt(v.origin, hops, i + 1) {
        ShiftAborts(v.origin, hops, i);
      }
      if j: nat :| AbortsAt(v.origin, hops, j) {
        assert AbortsAt(next.origin, hops[1..], j - 1);
      }
      forall i: nat | AbortsAt(v.origin, hops, i)
        ensures Chain(v, hops).abort == Aborted(Some(hops[i].reason))
      {
        assert AbortsAt(next.origin, hops[1..], i - 1);
      }
    }
  }

  predicate NoneSensitive(hs: seq<Header>) {
    forall h :: h in hs ==> !Named(h, SENSITIVE)
  }

  lemma {:induction false} DroppedAreGone(hs: seq<Header>, names: seq<string>)
    ensures forall h :: h in Dropping(hs, names) <==> h in hs && !Named(h, names)
  {
    if hs != [] {
      DroppedAreGone(hs[1..], names);
    }
  }

  /** A chain that was not aborted ends at its last target's origin, and if any
      hop crossed origins, none of the six headers is left. */
  lemma {:induction false} SafeAfterChain(v: RedirectView, hops: seq<Hop>)
    requires v.abort == NotAborted && Chain(v, hops).abort == NotAborted
    ensures forall i :: 0 <= i < |hops| ==> hops[i].Target?
    ensures Chain(v, hops).origin == From(v.origin, hops, |hops|)
    ensures (exists i :: 0 <= i < |hops| && Crosses(v.origin, hops, i)) || NoneSensitive(v.headers)
            ==> NoneSensitive(Chain(v, hops).headers)
    decreases |hops|
  {
    if hops != [] {
      var next := Redirected(v, hops[0]);
      if next.abort.Aborted? {
        AbortPersists(next, hops[1..]);
      }
      SafeAfterChain(next, hops[1..]);
      assert forall i :: 1 <= i < |hops| ==> hops[i] == hops[1..][i - 1];
      DroppedAreGone(v.headers, SENSITIVE);
      if i :| 0 <= i < |hops| && Crosses(v.origin, hops, i) {
        if i > 0 {
          assert Crosses(next.origin, hops[1..], i - 1);
        }
      }
    }
  }

  /** Redirects within one site change nothing: neither the origin nor a single
      header, sensitive or not. */
  lemma {:induction false} SameSiteKeepsAll(first: Url, v: RedirectView, hops: seq<Hop>)
    requires v.origin == OriginOf(first)
    requires forall i :: 0 <= i < |hops| ==> hops[i].Target? && SameSite(first, hops[i].url)
    ensures Chain(v, hops) == v
    decreases |hops|
  {
    if hops != [] {
      assert hops[0].Target? && SameSite(first, hops[0].url);
      OriginIsSite(first, hops[0].url);
      SameSiteKeepsAll(first, v, hops[1..]);
    }
  }

  /** A redirect to another site moves the origin, and takes away the headers of
      the six names and no others. */
  lemma OtherSiteStrips(from: Url, v: RedirectView, hop: Hop)
    requires v.origin == OriginOf(from) && hop.Target? && !SameSite(from, hop.url) && hop.failAt >= 6
    ensures var t := Redirected(v, hop);
            && t.origin == OriginOf(hop.url) && t.abort == v.abort
            && (forall h :: h in t.headers <==> h in v.headers && !IsSensitive(h.name))
  {
    OriginIsSite(from, hop.url);
    DroppedAreGone(v.headers, SENSITIVE);
    forall h: Header ensures Named(h, SENSITIVE) <==> IsSensitive(h.name) {
      NamedIsSensitive(h);
    }
  }

  /** What must not reach another origin, in any letter case. */
  ghost predicate IsSensitive(name: string) {
    || SameLetters(name, "authorization") || SameLetters(name, "cookie") || SameLetters(name, "cookie2")
    || SameLetters(name, "proxy-authorization") || SameLetters(name, "proxy-authenticate")
    || SameLetters(name, "www-authenticate")
  }

  lemma NamedIsSensitive(h: Header)
    ensures Named(h, SENSITIVE) <==> IsSensitive(h.name)
  {
    SensitiveNames();
    LowerIgnoresCase(h.name, "authorization");
    LowerIgnoresCase(h.name, "cookie");
    LowerIgnoresCase(h.name, "cookie2");
    LowerIgnoresCase(h.name, "proxy-authorization");
    LowerIgnoresCase(h.name, "proxy-authenticate");
    LowerIgnoresCase(h.name, "www-authenticate");
    hide Lower, SameLetters;
    if Named(h, SENSITIVE) {
      var i :| 0 <= i < |SENSITIVE| && Lower(h.name) == Lower(SENSITIVE[i]);
    } else {
      assert forall i :: 0 <= i < |SENSITIVE| ==> Lower(h.name) != Lower(SENSITIVE[i]);
      assert Lower(h.name) != Lower(SENSITIVE[0]) && Lower(h.name) != Lower(SENSITIVE[1]);
      assert Lower(h.name) != Lower(SENSITIVE[2]) && Lower(h.name) != Lower(SENSITIVE[3]);
      assert Lower(h.name) != Lower(SENSITIVE[4]) && Lower(h.name) != Lower(SENSITIVE[5]);
    }
  }

  lemma SensitiveNames()
    ensures |SENSITIVE| == 6
    ensures Lower(SENSITIVE[0]) == Lower("authorization")
    ensures Lower(SENSITIVE[1]) == Lower("cookie")
    ensures Lower(SENSITIVE[2]) == Lower("cookie2")
    ensures Lower(SENSITIVE[3]) == Lower("proxy-authorization")
    ensures Lower(SENSITIVE[4]) == Lower("proxy-authenticate")
    ensures Lower(SENSITIVE[5]) == Lower("www-authenticate")
  {
    RequestNames();
    ProxyNames();
    ServerNames();
    LowerIgnoresCase("Authorization", "authorization");
    LowerIgnoresCase("Cookie", "cookie");
    LowerIgnoresCase("Cookie2", "cookie2");
    LowerIgnoresCase("Proxy-Authorization", "proxy-authorization");
    LowerIgnoresCase("Proxy-Authenticate", "proxy-authenticate");
    LowerIgnoresCase("WWW-Authenticate", "www-authenticate");
    hide Lower, SameLetters;
  }

  lemma RequestNames()
    ensures SameLetters("Authorization", "authorization")
    ensures SameLetters("Cookie", "cookie") && SameLetters("Cookie2", "cookie2")
  {
  }

  lemma ProxyNames()
    ensures SameLetters("Proxy-Authorization", "proxy-authorization")
    ensures SameLetters("Proxy-Authenticate", "proxy-authenticate")
  {
  }

  lemma ServerNames()
    ensures SameLetters("WWW-Authenticate", "www-authenticate")
  {
  }

  /** A redirect that cannot be classified, or whose target's headers cannot all
      be removed, leaves the tracked origin where it is, and aborts. */
  lemma BadHopStays(from: Url, v: RedirectView, hop: Hop)
    requires v.origin == OriginOf(from) && v.abort == NotAborted
    requires hop.Unparsable? || (!SameSite(from, hop.url) && hop.failAt < 6)
    ensures var t := Redirected(v, hop);
            && t.origin == v.origin && t.abort == Aborted(Some(hop.reason))
            && (hop.Unparsable? ==> t.headers == v.headers)
            && (hop.Target? ==> forall h :: h in t.headers <==> h in v.headers && !Named(h, SENSITIVE[..hop.failAt]))
            && (forall h :: h in v.headers && !IsSensitive(h.name) ==> h in t.headers)
            && (forall h :: h in t.headers ==> h in v.headers)
  {
    if hop.Target? {
      OriginIsSite(from, hop.url);
      DroppedAreGone(v.headers, SENSITIVE[..hop.failAt]);
      forall h: Header | Named(h, SENSITIVE[..hop.failAt]) ensures IsSensitive(h.name) {
        var i :| 0 <= i < hop.failAt && Lower(h.name) == Lower(SENSITIVE[..hop.failAt][i]);
        assert Named(h, SENSITIVE);
        NamedIsSensitive(h);
      }
    }
  }

  lemma {:induction false} DroppingAgain(hs: seq<Header>, few: seq<string>, all: seq<string>)
    requires forall i :: 0 <= i < |few| ==> few[i] in all
    ensures Dropping(Dropping(hs, few), all) == Dropping(hs, all)
  {
    if hs != [] {
      DroppingAgain(hs[1..], few, all);
      assert Named(hs[0], few) ==> Named(hs[0], all);
      var kept := Dropping(hs[1..], few);
      assert ([hs[0]] + kept)[1..] == kept;
    }
  }

  /** Nothing else is ever taken away: aborted or not, the other headers stay,
      all of them and in order. */
  lemma {:induction false} OtherHeadersStay(v: RedirectView, hops: seq<Hop>)
    ensures Dropping(Chain(v, hops).headers, SENSITIVE) == Dropping(v.headers, SENSITIVE)
    decreases |hops|
  {
    if hops != [] {
      OtherHeadersStay(Redirected(v, hops[0]), hops[1..]);
      DroppingAgain(v.headers, SENSITIVE, SENSITIVE);
      if hops[0].Target? && hops[0].failAt < |SENSITIVE| {
        DroppingAgain(v.headers, SENSITIVE[..hops[0].failAt], SENSITIVE);
      }
    }
  }
}
