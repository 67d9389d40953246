/** Building a request from its builder, and rebuilding a built request. */
module Headers {
  import opened Prelude

  /** An entry of a header map; names are stored in lower case. */
  datatype Pair = Pair(name: string, value: seq<byte>)

  /** A header as the builder keeps it, value bytes widened to characters. */
  datatype Entry = Entry(name: string, value: string)

  datatype UserInfo = UserInfo(username: seq<byte>, password: Option<seq<byte>>)

  /** A parsed URL, with its percent-decoded user information apart. */
  datatype Url = Url(location: string, userinfo: Option<UserInfo>)

  datatype Error = BadUrl | BadName | BadValue | BadMethod

  datatype Builder = Builder(
    defaults: seq<Pair>, verb: string, url: Result<Url, Error>, headers: seq<Entry>, body: Option<nat>,
    timeout: Option<nat>)

  datatype Request = Request(
    verb: string, url: Url, headers: seq<Pair>, body: Option<nat>, timeout: Option<nat>)

  // ----- Latin-1 ----------------------------------------------------------

  function WidenLatin1(bytes: seq<byte>): string {
    seq(|bytes|, i requires 0 <= i < |bytes| => bytes[i] as char)
  }

  /** Every character is cut down to its low byte. */
  function NarrowLatin1(s: string): seq<byte> {
    seq(|s|, i requires 0 <= i < |s| => (s[i] as int) % 256)
  }

  /** Widening keeps every byte as the character of that number, so narrowing loses nothing. */
  lemma WidenedNarrows(bytes: seq<byte>)
    ensures |WidenLatin1(bytes)| == |bytes|
    ensures forall i :: 0 <= i < |bytes| ==> WidenLatin1(bytes)[i] as int == bytes[i]
    ensures NarrowLatin1(WidenLatin1(bytes)) == bytes
  {
    forall i | 0 <= i < |bytes| ensures NarrowLatin1(WidenLatin1(bytes))[i] == bytes[i] {
      assert WidenLatin1(bytes)[i] as int == bytes[i];
    }
  }

  // ----- Header maps ------------------------------------------------------

  /** A character of a token, section 3.2.6 of RFC 7230. */
  predicate IsTokenChar(c: char) {
    '0' <= c <= '9' || 'a' <= c <= 'z' || 'A' <= c <= 'Z' || c in "!#$%&'*+-.^_`|~"
  }

  predicate IsToken(s: string) {
    s != [] && forall i :: 0 <= i < |s| ==> IsTokenChar(s[i])
  }

  predicate IsValue(v: seq<byte>) {
    forall i :: 0 <= i < |v| ==> (v[i] >= 32 && v[i] != 127) || v[i] == 9
  }

  /** What `HeaderValue::from_str` takes. */
  predicate IsVisible(v: seq<byte>) {
    forall i :: 0 <= i < |v| ==> 32 <= v[i] < 127 || v[i] == 9
  }

  /** What a HeaderMap guarantees of its entries. */
  predicate IsHeaderMap(m: seq<Pair>) {
    forall p :: p in m ==> IsToken(p.name) && Lower(p.name) == p.name && IsValue(p.value)
  }

  function Values(m: seq<Pair>, name: string): seq<seq<byte>> {
    if m == [] then [] else (if m[0].name == name then [m[0].value] else []) + Values(m[1..], name)
  }

  /** The bytes of the builder's own headers of a name, in order. */
  function Own(headers: seq<Entry>, name: string): seq<seq<byte>> {
    if headers == [] then []
    else (if Lower(headers[0].name) == name then [NarrowLatin1(headers[0].value)] else []) + Own(headers[1..], name)
  }

  lemma {:induction false} ValuesSnoc(m: seq<Pair>, p: Pair, name: string)
    ensures Values(m + [p], name) == Values(m, name) + if p.name == name then [p.value] else []
  {
    if m == [] {
      assert m + [p] == [p] && [p][1..] == [];
    } else {
      ValuesSnoc(m[1..], p, name);
      var all := m + [p];
      assert all[0] == m[0] && all[1..] == m[1..] + [p];
      assert Values(all, name) == (if m[0].name == name then [m[0].value] else []) + Values(m[1..] + [p], name);
    }
  }

  lemma {:induction false} OwnSnoc(hs: seq<Entry>, h: Entry, name: string)
    ensures Own(hs + [h], name) == Own(hs, name) + if Lower(h.name) == name then [NarrowLatin1(h.value)] else []
  {
    if hs == [] {
      assert hs + [h] == [h] && [h][1..] == [];
    } else {
      OwnSnoc(hs[1..], h, name);
      var all := hs + [h];
      assert all[0] == hs[0] && all[1..] == hs[1..] + [h];
      assert Own(all, name)
        == (if Lower(hs[0].name) == name then [NarrowLatin1(hs[0].value)] else []) + Own(hs[1..] + [h], name);
    }
  }

  lemma {:induction false} OwnIffNamed(hs: seq<Entry>, name: string)
    ensures Own(hs, name) != [] <==> exists i :: 0 <= i < |hs| && Lower(hs[i].name) == name
  {
    if hs != [] {
      OwnIffNamed(hs[1..], name);
      if i :| 0 <= i < |hs| && Lower(hs[i].name) == name {
        assert i > 0 ==> hs[1..][i - 1] == hs[i];
      }
      if i :| 0 <= i < |hs[1..]| && Lower(hs[1..][i].name) == name {
        assert hs[i + 1] == hs[1..][i];
      }
    }
  }

  // ----- What build promises ----------------------------------------------

  const ACCEPT := "accept"
  const AUTHORIZATION := "authorization"
  const ANYTHING: seq<byte> := [42, 47, 42]
  const BASIC: seq<byte> := [66, 97, 115, 105, 99, 32]

  function Credentials(u: UserInfo): seq<byte> {
    u.username + [58] + (match u.password case None => [] case Some(p) => p)
  }

  /** The first thing in the builder that is not acceptable. */
  function FirstBadHeader(headers: seq<Entry>): Option<Error> {
    if headers == [] then None
    else if !IsToken(headers[0].name) then Some(BadName)
    else if !IsValue(NarrowLatin1(headers[0].value)) then Some(BadValue)
    else FirstBadHeader(headers[1..])
  }

  function FirstError(b: Builder): Option<Error> {
    if b.url.Err? then Some(b.url.error)
    else if FirstBadHeader(b.headers).Some? then FirstBadHeader(b.headers)
    else if !IsToken(b.verb) then Some(BadMethod)
    else None
  }

  /** The values a request must carry under `name`: the builder's own, else the
      client's defaults, else what is filled in. */
  function Expected(b: Builder, b64: seq<byte> -> seq<byte>, name: string): seq<seq<byte>>
    requires b.url.Ok?
  {
    if Own(b.headers, name) != [] then Own(b.headers, name)
    else if Values(b.defaults, name) != [] then Values(b.defaults, name)
    else if name == ACCEPT then [ANYTHING]
    else if name == AUTHORIZATION && b.url.value.userinfo.Some?
            && IsVisible(BASIC + b64(Credentials(b.url.value.userinfo.value)))
    then [BASIC + b64(Credentials(b.url.value.userinfo.value))]
    else []
  }

  ghost predicate Builds(b: Builder, b64: seq<byte> -> seq<byte>, r: Result<Request, Error>) {
    match FirstError(b)
    case Some(e) => r == Err(e)
    case None =>
      && r.Ok?
      && r.value.verb == b.verb
      && r.value.url == b.url.value.(userinfo := None)
      && r.value.body == b.body && r.value.timeout == b.timeout
      && IsHeaderMap(r.value.headers)
      && forall name :: Values(r.value.headers, name) == Expected(b, b64, name)
  }

  // ----- build ------------------------------------------------------------

  function LowerNames(headers: seq<Entry>): set<string> {
    set i | 0 <= i < |headers| :: Lower(headers[i].name)
  }

  lemma NamedIsOwn(headers: seq<Entry>, name: string)
    ensures name in LowerNames(headers) <==> Own(headers, name) != []
  {
    OwnIffNamed(headers, name);
  }

  /** `m` holds what stays of the defaults `seen`. */
  ghost predicate Kept(own: set<string>, seen: seq<Pair>, m: seq<Pair>) {
    forall name :: Values(m, name) == if name in own then [] else Values(seen, name)
  }

  lemma KeptOne(own: set<string>, seen: seq<Pair>, m: seq<Pair>, p: Pair)
    requires Kept(own, seen, m)
    ensures Kept(own, seen + [p], if p.name in own then m else m + [p])
  {
    hide Values;
    forall name
      ensures Values(if p.name in own then m else m + [p], name)
              == if name in own then [] else Values(seen + [p], name)
    {
      ValuesSnoc(seen, p, name);
      ValuesSnoc(m, p, name);
    }
  }

  lemma MapSnoc(m: seq<Pair>, p: Pair)
    requires IsHeaderMap(m) && IsHeaderMap([p])
    ensures IsHeaderMap(m + [p])
  {
  }

  lemma MapAt(m: seq<Pair>, i: nat)
    requires IsHeaderMap(m) && i < |m|
    ensures IsHeaderMap([m[i]])
  {
  }

  lemma NothingYet(own: set<string>, m0: seq<Pair>)
    ensures Kept(own, [], []) && Appended(m0, [], m0) && IsHeaderMap([])
  {
    assert forall name :: Values(m0, name) + [] == Values(m0, name);
  }

  /** The client's defaults that no header of the builder overrides. */
  method KeptDefaults(b: Builder) returns (m: seq<Pair>)
    requires IsHeaderMap(b.defaults)
    ensures IsHeaderMap(m)
    ensures forall name :: Values(m, name) == if Own(b.headers, name) == [] then Values(b.defaults, name) else []
  {
    var own := LowerNames(b.headers);
    m := [];
    var i := 0;
    assert b.defaults[..0] == [];
    NothingYet(own, []);
    hide LowerNames, Own, Values, Kept, IsHeaderMap;
    while i < |b.defaults|
      invariant 0 <= i <= |b.defaults| && IsHeaderMap(m)
      invariant Kept(own, b.defaults[..i], m)
    {
      var p := b.defaults[i];
      assert b.defaults[..i + 1] == b.defaults[..i] + [p];
      KeptOne(own, b.defaults[..i], m, p);
      if p.name !in own {
        MapAt(b.defaults, i);
        MapSnoc(m, p);
        m := m + [p];
      }
      i := i + 1;
    }
    assert b.defaults[..i] == b.defaults;
    KeptAll(b, m);
  }

  lemma KeptAll(b: Builder, m: seq<Pair>)
    requires Kept(LowerNames(b.headers), b.defaults, m)
    ensures forall name :: Values(m, name) == if Own(b.headers, name) == [] then Values(b.defaults, name) else []
  {
    hide Values, LowerNames, Own;
    forall name
      ensures Values(m, name) == if Own(b.headers, name) == [] then Values(b.defaults, name) else []
    {
      NamedIsOwn(b.headers, name);
    }
  }

  lemma LowerToken(s: string)
    requires IsToken(s)
    ensures IsToken(Lower(s))
  {
  }

  /** `m` is `m0` followed by the headers `seen`. */
  ghost predicate Appended(m0: seq<Pair>, seen: seq<Entry>, m: seq<Pair>) {
    forall name :: Values(m, name) == Values(m0, name) + Own(seen, name)
  }

  lemma AppendedOne(m0: seq<Pair>, seen: seq<Entry>, m: seq<Pair>, h: Entry)
    requires Appended(m0, seen, m) && IsToken(h.name) && IsValue(NarrowLatin1(h.value))
    ensures var p := Pair(Lower(h.name), NarrowLatin1(h.value));
            Appended(m0, seen + [h], m + [p]) && IsHeaderMap([p])
  {
    var p := Pair(Lower(h.name), NarrowLatin1(h.value));
    LowerTwice(h.name);
    LowerToken(h.name);
    hide Values, Own, Lower, IsToken, IsValue;
    forall name ensures Values(m + [p], name) == Values(m0, name) + Own(seen + [h], name) {
      ValuesSnoc(m, p, name);
      OwnSnoc(seen, h, name);
    }
  }

  /** Appends the builder's headers, or finds the first bad one. */
  method AppendOwn(m0: seq<Pair>, headers: seq<Entry>) returns (m: seq<Pair>, error: Option<Error>)
    requires IsHeaderMap(m0)
    ensures error == FirstBadHeader(headers)
    ensures error == None ==> IsHeaderMap(m)
    ensures error == None ==> forall name :: Values(m, name) == Values(m0, name) + Own(headers, name)
  {
    m, error := m0, None;
    var i := 0;
    assert headers[..0] == [];
    NothingYet({}, m0);
    hide IsHeaderMap, IsToken, IsValue, NarrowLatin1, Lower;
    while i < |headers|
      invariant 0 <= i <= |headers| && IsHeaderMap(m)
      invariant FirstBadHeader(headers[i..]) == FirstBadHeader(headers)
      invariant Appended(m0, headers[..i], m)
    {
      hide Appended;
      var h := headers[i];
      assert headers[i..][1..] == headers[i + 1..] && headers[..i + 1] == headers[..i] + [h];
      if !IsToken(h.name) {
        return m, Some(BadName);
      }
      var value := NarrowLatin1(h.value);
      if !IsValue(value) {
        return m, Some(BadValue);
      }
      AppendedOne(m0, headers[..i], m, h);
      var p := Pair(Lower(h.name), value);
      MapSnoc(m, p);
      m := m + [p];
      i := i + 1;
    }
    assert headers[..i] == headers;
  }

  method AddIfAbsent(m: seq<Pair>, name: string, value: seq<byte>) returns (r: seq<Pair>)
    requires IsHeaderMap(m) && IsToken(name) && Lower(name) == name && IsValue(value)
    ensures IsHeaderMap(r)
    ensures forall n :: Values(r, n) == if n == name && Values(m, n) == [] then [value] else Values(m, n)
  {
    r := m;
    if Values(m, name) == [] {
      r := m + [Pair(name, value)];
      forall n ensures Values(r, n) == Values(m, n) + if n == name then [value] else [] {
        ValuesSnoc(m, Pair(name, value), n);
      }
    }
  }

  lemma NamesToFill()
    ensures IsToken(ACCEPT) && Lower(ACCEPT) == ACCEPT && IsValue(ANYTHING)
    ensures IsToken(AUTHORIZATION) && Lower(AUTHORIZATION) == AUTHORIZATION
  {
  }

  lemma VisibleIsValue(v: seq<byte>)
    ensures IsVisible(v) ==> IsValue(v)
  {
  }

  method Build(b: Builder, b64: seq<byte> -> seq<byte>) returns (r: Result<Request, Error>)
    requires IsHeaderMap(b.defaults)
    ensures Builds(b, b64, r)
  {
    NamesToFill();
    hide Values, Own, FirstBadHeader, IsToken, IsValue, IsVisible, Lower;
    if b.url.Err? {
      return Err(b.url.error);
    }
    var url := b.url.value;
    var m := KeptDefaults(b);
    var error;
    m, error := AppendOwn(m, b.headers);
    if error.Some? {
      return Err(error.value);
    }
    m := AddIfAbsent(m, ACCEPT, ANYTHING);
    if url.userinfo.Some? {
      var info := url.userinfo.value;
      url := url.(userinfo := None);
      var value := BASIC + b64(Credentials(info));
      if IsVisible(value) {
        VisibleIsValue(value);
        m := AddIfAbsent(m, AUTHORIZATION, value);
      }
    }
    if !IsToken(b.verb) {
      return Err(BadMethod);
    }
    r := Ok(Request(b.verb, url, m, b.body, b.timeout));
  }

  // ----- What is on the wire ----------------------------------------------

  /** Position of the first colon. */
  function FirstColon(s: seq<byte>): (i: nat)
    ensures i <= |s|
    ensures i < |s| ==> s[i] == 58
    ensures forall j :: 0 <= j < i ==> s[j] != 58
  {
    if s == [] || s[0] == 58 then 0 else 1 + FirstColon(s[1..])
  }

  /** The server's side of section 2 of RFC 7617: what is before the first colon
      of the credentials is the user name and what is after it the password. */
  lemma CredentialsReadBack(u: UserInfo)
    requires 58 !in u.username
    ensures var c := Credentials(u);
            && FirstColon(c) < |c|
            && c[..FirstColon(c)] == u.username
            && c[FirstColon(c) + 1..] == if u.password.Some? then u.password.value else []
  {
    FirstColonAfter(u.username, if u.password.Some? then u.password.value else []);
  }

  lemma {:induction false} FirstColonAfter(a: seq<byte>, b: seq<byte>)
    requires 58 !in a
    ensures FirstColon(a + [58] + b) == |a|
  {
    if a != [] {
      assert (a + [58] + b)[1..] == a[1..] + [58] + b;
      FirstColonAfter(a[1..], b);
    }
  }

  /** What a request carries that was built from a URL with user information and
      no other authorization: Basic credentials from which the server reads back
      exactly that user name and password. */
  lemma UserInfoIsSent(b: Builder, b64: seq<byte> -> seq<byte>, request: Request) returns (sent: seq<byte>)
    requires Builds(b, b64, Ok(request)) && b.url.Ok? && b.url.value.userinfo.Some?
    requires forall x :: IsVisible(b64(x))
    requires Own(b.headers, "authorization") == [] && Values(b.defaults, "authorization") == []
    requires 58 !in b.url.value.userinfo.value.username
    ensures Values(request.headers, "authorization") == [[66, 97, 115, 105, 99, 32] + b64(sent)]
    ensures request.url.userinfo == None
    ensures var u := b.url.value.userinfo.value;
            && FirstColon(sent) < |sent|
            && sent[..FirstColon(sent)] == u.username
            && sent[FirstColon(sent) + 1..] == if u.password.Some? then u.password.value else []
  {
    sent := Credentials(b.url.value.userinfo.value);
    CredentialsReadBack(b.url.value.userinfo.value);
    BasicIsVisible(b64(sent));
    FilledNames();
    hide Credentials, IsVisible, Own, Values, FirstColon;
    assert Values(request.headers, AUTHORIZATION) == Expected(b, b64, AUTHORIZATION);
  }

  lemma BasicIsVisible(v: seq<byte>)
    ensures IsVisible(v) ==> IsVisible(BASIC + v)
  {
  }

  lemma FilledNames()
    ensures AUTHORIZATION == "authorization" && ACCEPT == "accept" && ACCEPT != AUTHORIZATION
    ensures BASIC == [66, 97, 115, 105, 99, 32] && ANYTHING == [42, 47, 42]
  {
    assert |"accept"| == 6 && |"authorization"| == 13;
  }

  /** The precedence of header values: the builder's own, all of them in order
      and nothing else; else the client's defaults; and `*`/`*` where neither
      accepts anything in particular. */
  lemma OwnHeadersWin(b: Builder, b64: seq<byte> -> seq<byte>, request: Request, name: string)
    requires Builds(b, b64, Ok(request)) && b.url.Ok?
    ensures (exists i :: 0 <= i < |b.headers| && Lower(b.headers[i].name) == name) ==>
              Values(request.headers, name) == Own(b.headers, name) != []
    ensures !(exists i :: 0 <= i < |b.headers| && Lower(b.headers[i].name) == name) ==>
              if Values(b.defaults, name) != [] then Values(request.headers, name) == Values(b.defaults, name)
              else if name == "accept" then Values(request.headers, name) == [[42, 47, 42]]
              else name != "authorization" ==> Values(request.headers, name) == []
  {
    OwnIffNamed(b.headers, name);
    FilledNames();
    hide Own, Values, Lower;
    assert Values(request.headers, name) == Expected(b, b64, name);
  }

  /** Which of several errors is reported: the URL's, else the first bad header's,
      its name before its value, else the method's. */
  lemma ErrorsComeInOrder(b: Builder, b64: seq<byte> -> seq<byte>, e: Error)
    requires Builds(b, b64, Err(e))
    ensures b.url.Err? ==> e == b.url.error
    ensures b.url.Ok? ==>
              (forall i :: 0 <= i < |b.headers| && IsFirstBad(b.headers, i) ==>
                e == if IsToken(b.headers[i].name) then BadValue else BadName)
              && ((forall i :: 0 <= i < |b.headers| ==> IsGood(b.headers[i])) ==> e == BadMethod && !IsToken(b.verb))
  {
    FirstBadIsFirst(b.headers);
    hide IsToken, IsValue, NarrowLatin1;
  }

  predicate IsGood(h: Entry) {
    IsToken(h.name) && IsValue(NarrowLatin1(h.value))
  }

  ghost predicate IsFirstBad(headers: seq<Entry>, i: nat)
    requires i < |headers|
  {
    !IsGood(headers[i]) && forall j :: 0 <= j < i ==> IsGood(headers[j])
  }

  lemma {:induction false} FirstBadIsFirst(headers: seq<Entry>)
    ensures forall i :: 0 <= i < |headers| && IsFirstBad(headers, i) ==>
              FirstBadHeader(headers) == Some(if IsToken(headers[i].name) then BadValue else BadName)
    ensures (forall i :: 0 <= i < |headers| ==> IsGood(headers[i])) ==> FirstBadHeader(headers) == None
  {
    hide IsToken, IsValue, NarrowLatin1;
    if headers != [] {
      FirstBadIsFirst(headers[1..]);
      forall i | 0 <= i < |headers| && IsFirstBad(headers, i)
        ensures FirstBadHeader(headers) == Some(if IsToken(headers[i].name) then BadValue else BadName)
      {
        if i > 0 {
          assert IsGood(headers[0]) && headers[1..][i - 1] == headers[i];
          assert IsFirstBad(headers[1..], i - 1);
        }
      }
    }
  }

  /** Nothing in a built request can break out of its header line: no name holds
      white space, a colon or a control character, and no value a line break or NUL. */
  lemma HeadersStayInLine(b: Builder, b64: seq<byte> -> seq<byte>, request: Request, p: Pair)
    requires Builds(b, b64, Ok(request)) && p in request.headers
    ensures p.name != [] && forall i :: 0 <= i < |p.name| ==> 33 <= p.name[i] as int < 127 && p.name[i] != ':'
    ensures 10 !in p.value && 13 !in p.value && 0 !in p.value
  {
    assert IsToken(p.name) && IsValue(p.value);
    hide Builds, IsToken, IsValue;
    TokenStaysInLine(p.name);
    ValueStaysInLine(p.value);
  }

  lemma TokenStaysInLine(s: string)
    requires IsToken(s)
    ensures s != [] && forall i :: 0 <= i < |s| ==> 33 <= s[i] as int < 127 && s[i] != ':'
  {
  }

  lemma ValueStaysInLine(v: seq<byte>)
    requires IsValue(v)
    ensures 10 !in v && 13 !in v && 0 !in v
  {
  }

  // ----- from_parts -------------------------------------------------------

  /** `order` is the header map as its iterator yields it: any order of names,
      the values of each name in their order. */
  ghost predicate Enumerates(order: seq<Pair>, m: seq<Pair>) {
    IsHeaderMap(order) && forall name :: Values(order, name) == Values(m, name)
  }

  function Widened(order: seq<Pair>): seq<Entry> {
    seq(|order|, i requires 0 <= i < |order| => Entry(order[i].name, WidenLatin1(order[i].value)))
  }

  function FromParts(defaults: seq<Pair>, request: Request, order: seq<Pair>): Builder {
    Builder(defaults, request.verb, Ok(request.url), Widened(order), request.body, request.timeout)
  }

  lemma {:induction false} WidenedValues(order: seq<Pair>, name: string)
    requires IsHeaderMap(order)
    ensures Own(Widened(order), name) == Values(order, name)
    ensures FirstBadHeader(Widened(order)) == None
  {
    if order != [] {
      assert order[0] in order && forall p :: p in order[1..] ==> p in order;
      assert Widened(order)[1..] == Widened(order[1..]);
      WidenedNarrows(order[0].value);
      WidenedValues(order[1..], name);
    }
  }

  /** Rebuilding is a fixed point: a request that was built, taken apart and
      built again by the same client has the same method, URL, body and
      timeout, and under every name the same values in the same order, byte
      for byte; no default is added a second time. */
  lemma RebuildIsFixedPoint(b: Builder, b64: seq<byte> -> seq<byte>, request: Request, order: seq<Pair>,
                            again: Result<Request, Error>)
    requires IsHeaderMap(b.defaults) && Builds(b, b64, Ok(request))
    requires Enumerates(order, request.headers)
    requires Builds(FromParts(b.defaults, request, order), b64, again)
    ensures again.Ok?
    ensures again.value.verb == request.verb && again.value.url == request.url
    ensures again.value.body == request.body && again.value.timeout == request.timeout
    ensures forall name :: Values(again.value.headers, name) == Values(request.headers, name)
  {
    WidenedValues(order, ACCEPT);
    var c := FromParts(b.defaults, request, order);
    forall name ensures Values(again.value.headers, name) == Values(request.headers, name) {
      WidenedValues(order, name);
      assert Values(request.headers, name) == Expected(b, b64, name);
      assert Values(again.value.headers, name) == Expected(c, b64, name);
    }
  }
}
