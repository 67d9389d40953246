/** NO_PROXY: parsing the list, matching a host, and the proxy decision. */
module NoProxy {
  import opened Prelude

  datatype Pattern = Wildcard | Exact(name: string) | DomainSuffix(suffix: string)

  datatype Action = Direct | Named(url: string) | Automatic

  datatype Config = Config(httpProxy: Option<string>, httpsProxy: Option<string>, noProxy: seq<Pattern>)

  /** The pieces between the separators, empty ones included. */
  function Split(s: string, sep: char): (pieces: seq<string>)
    ensures pieces != []
  {
    if s == [] then [[]]
    else
      var rest := Split(s[1..], sep);
      if s[0] == sep then [[]] + rest else [[s[0]] + rest[0]] + rest[1..]
  }

  /** Unicode white space, what `str::trim` removes. */
  predicate IsWhite(c: char) {
    var x := c as int;
    9 <= x <= 13 || x == 0x20 || x == 0x85 || x == 0xA0 || x == 0x1680 || 0x2000 <= x <= 0x200A
    || x == 0x2028 || x == 0x2029 || x == 0x202F || x == 0x205F || x == 0x3000
  }

  function Trim(s: string): string {
    if s != [] && IsWhite(s[0]) then Trim(s[1..])
    else if s != [] && IsWhite(s[|s| - 1]) then Trim(s[..|s| - 1])
    else s
  }

  function ToPattern(entry: string): Pattern
    requires entry != []
  {
    if entry == "*" then Wildcard
    else if entry[0] == '.' then DomainSuffix(Lower(entry[1..]))
    else if '.' in entry then DomainSuffix(Lower(entry))
    else Exact(Lower(entry))
  }

  function Patterns(pieces: seq<string>): seq<Pattern> {
    if pieces == [] then []
    else (if Trim(pieces[0]) == [] then [] else [ToPattern(Trim(pieces[0]))]) + Patterns(pieces[1..])
  }

  function ParseNoProxy(value: string): seq<Pattern> {
    Patterns(Split(value, ','))
  }

  predicate EndsWith(s: string, t: string) {
    |t| <= |s| && s[|s| - |t|..] == t
  }

  predicate Matches(p: Pattern, host: string) {
    var lower := Lower(host);
    match p
    case Wildcard => true
    case Exact(name) => lower == name
    case DomainSuffix(suffix) => lower == suffix || EndsWith(lower, "." + suffix)
  }

  function Resolve(c: Config, host: string, https: bool): Action {
    if exists p :: p in c.noProxy && Matches(p, host) then Direct
    else
      var proxy := if https then c.httpsProxy else c.httpProxy;
      if proxy.Some? then Named(proxy.value) else Automatic
  }

  // ----- Labels -----------------------------------------------------------

  function Labels(name: string): seq<string> {
    Split(name, '.')
  }

  /** `a` is the end of the list `b`. */
  predicate IsTail(a: seq<string>, b: seq<string>) {
    |a| <= |b| && b[|b| - |a|..] == a
  }

  function Join(pieces: seq<string>, sep: char): string
    requires pieces != []
  {
    if |pieces| == 1 then pieces[0] else pieces[0] + [sep] + Join(pieces[1..], sep)
  }

  lemma JoinEmptyFirst(rest: seq<string>, sep: char)
    requires rest != []
    ensures Join([[]] + rest, sep) == [sep] + Join(rest, sep)
  {
    assert ([[]] + rest)[1..] == rest;
    assert [] + [sep] == [sep];
  }

  lemma JoinLongerFirst(c: char, rest: seq<string>, sep: char)
    requires rest != []
    ensures Join([[c] + rest[0]] + rest[1..], sep) == [c] + Join(rest, sep)
  {
    var pieces := [[c] + rest[0]] + rest[1..];
    assert pieces[0] == [c] + rest[0] && pieces[1..] == rest[1..];
  }

  /** Splitting is what its name says: no piece holds the separator, and the
      pieces with separators between them are the text. */
  lemma SplitIsExact(s: string, sep: char)
    ensures forall piece :: piece in Split(s, sep) ==> sep !in piece
    ensures Join(Split(s, sep), sep) == s
  {
    PiecesAreWhole(s, sep);
    PiecesJoin(s, sep);
  }

  lemma {:induction false} PiecesAreWhole(s: string, sep: char)
    ensures forall piece :: piece in Split(s, sep) ==> sep !in piece
  {
    if s != [] {
      PiecesAreWhole(s[1..], sep);
      var rest := Split(s[1..], sep);
      assert rest[0] in rest && forall piece :: piece in rest[1..] ==> piece in rest;
    }
  }

  lemma {:induction false} PiecesJoin(s: string, sep: char)
    ensures Join(Split(s, sep), sep) == s
  {
    if s != [] {
      PiecesJoin(s[1..], sep);
      var rest := Split(s[1..], sep);
      assert s == [s[0]] + s[1..];
      if s[0] == sep {
        assert Split(s, sep) == [[]] + rest;
        hide Split, Join;
        JoinEmptyFirst(rest, sep);
      } else {
        assert Split(s, sep) == [[s[0]] + rest[0]] + rest[1..];
        hide Split, Join;
        JoinLongerFirst(s[0], rest, sep);
      }
    }
  }

  lemma SliceOfTail(s: string, x: nat, y: nat)
    requires s != [] && x <= y < |s|
    ensures s[1..][x..y] == s[x + 1..y + 1]
    ensures x < y ==> s[1..][x] == s[x + 1] && s[1..][y - 1] == s[y]
  {
    assert forall k :: x <= k < y ==> s[1..][k] == s[k + 1];
  }

  /** Trimming takes white space off both ends, and only that. */
  lemma {:induction false} TrimIsExact(s: string) returns (i: nat, j: nat)
    ensures i <= j <= |s| && Trim(s) == s[i..j]
    ensures forall k :: 0 <= k < i || j <= k < |s| ==> IsWhite(s[k])
    ensures i < j ==> !IsWhite(s[i]) && !IsWhite(s[j - 1])
  {
    hide IsWhite;
    if s != [] && IsWhite(s[0]) {
      var t := s[1..];
      var x, y := TrimIsExact(t);
      hide Trim;
      i, j := x + 1, y + 1;
      SliceOfTail(s, x, y);
      forall k | 0 <= k < i || j <= k < |s| ensures IsWhite(s[k]) {
        assert k > 0 ==> s[k] == t[k - 1];
      }
    } else if s != [] && IsWhite(s[|s| - 1]) {
      var t := s[..|s| - 1];
      i, j := TrimIsExact(t);
      hide Trim;
      assert t[i..j] == s[i..j];
      forall k | 0 <= k < i || j <= k < |s| ensures IsWhite(s[k]) {
        assert k < |t| ==> s[k] == t[k];
      }
    } else {
      i, j := 0, |s|;
    }
  }

  lemma {:induction false} LabelsConcat(a: string, b: string)
    ensures Labels(a + "." + b) == Labels(a) + Labels(b)
  {
    if a == [] {
      assert (a + "." + b)[1..] == b;
      assert Labels("") == [[]];
    } else {
      assert (a + "." + b)[1..] == a[1..] + "." + b;
      LabelsConcat(a[1..], b);
    }
  }

  lemma {:induction false} JoinConcat(a: seq<string>, b: seq<string>)
    requires a != [] && b != []
    ensures Join(a + b, '.') == Join(a, '.') + "." + Join(b, '.')
  {
    assert (a + b)[1..] == a[1..] + b;
    if |a| > 1 {
      JoinConcat(a[1..], b);
    }
  }

  lemma SuffixIsTail(host: string, suffix: string)
    requires EndsWith(host, "." + suffix)
    ensures IsTail(Labels(suffix), Labels(host))
  {
    var a := host[..|host| - |suffix| - 1];
    assert host == a + "." + suffix;
    LabelsConcat(a, suffix);
    hide Labels;
    assert (Labels(a) + Labels(suffix))[|Labels(a)|..] == Labels(suffix);
  }

  lemma TailIsSuffix(host: string, suffix: string)
    requires IsTail(Labels(suffix), Labels(host)) && host != suffix
    ensures EndsWith(host, "." + suffix)
  {
    var n := |Labels(host)| - |Labels(suffix)|;
    PiecesJoin(host, '.');
    PiecesJoin(suffix, '.');
    var a := Labels(host)[..n];
    assert Labels(host) == a + Labels(suffix);
    if n > 0 {
      JoinConcat(a, Labels(suffix));
      hide Join;
      assert host == Join(a, '.') + ("." + suffix);
    }
  }

  /** The string test of the code is a test on whole labels: no host and no
      suffix, however odd, can make it match in the middle of a label. */
  lemma SuffixIsLabelTail(host: string, suffix: string)
    ensures host == suffix || EndsWith(host, "." + suffix) <==> IsTail(Labels(suffix), Labels(host))
  {
    hide Labels, EndsWith;
    if EndsWith(host, "." + suffix) {
      SuffixIsTail(host, suffix);
    }
    if IsTail(Labels(suffix), Labels(host)) && host != suffix {
      TailIsSuffix(host, suffix);
    }
  }

  // ----- The decision -----------------------------------------------------

  /** What one comma-separated entry asks for, in terms of names. */
  predicate Bypasses(piece: string, host: string) {
    var entry := Trim(piece);
    && entry != []
    && (entry == "*"
        || (if '.' in entry
            then IsTail(Labels(Lower(if entry[0] == '.' then entry[1..] else entry)), Labels(Lower(host)))
            else Lower(entry) == Lower(host)))
  }

  lemma PatternBypasses(piece: string, host: string)
    requires Trim(piece) != []
    ensures Matches(ToPattern(Trim(piece)), host) <==> Bypasses(piece, host)
  {
    var entry := Trim(piece);
    if '.' in entry {
      SuffixIsLabelTail(Lower(host), Lower(if entry[0] == '.' then entry[1..] else entry));
    }
  }

  lemma {:induction false} PatternsMembers(pieces: seq<string>, p: Pattern)
    ensures p in Patterns(pieces)
            <==> exists piece :: piece in pieces && Trim(piece) != [] && p == ToPattern(Trim(piece))
  {
    if pieces != [] {
      PatternsMembers(pieces[1..], p);
      if piece :| piece in pieces && Trim(piece) != [] && p == ToPattern(Trim(piece)) {
        assert piece == pieces[0] || piece in pieces[1..];
      }
      if p in Patterns(pieces) {
        if p in Patterns(pieces[1..]) {
          var piece :| piece in pieces[1..] && Trim(piece) != [] && p == ToPattern(Trim(piece));
          assert piece in pieces;
        } else {
          assert pieces[0] in pieces && p == ToPattern(Trim(pieces[0]));
        }
      }
    }
  }

  /** For every list and host: the proxy is bypassed exactly when some entry is
      `*`, or is the host (without regard to ASCII case), or, if it has a dot,
      its labels are the last labels of the host; otherwise the scheme's proxy
      decides. */
  lemma DirectExactly(value: string, http: Option<string>, secure: Option<string>, host: string, https: bool)
    ensures var action := Resolve(Config(http, secure, ParseNoProxy(value)), host, https);
            && (action == Direct <==> exists piece :: piece in Split(value, ',') && Bypasses(piece, host))
            && (action != Direct ==>
                  var proxy := if https then secure else http;
                  action == if proxy.Some? then Named(proxy.value) else Automatic)
  {
    hide Matches, Bypasses, ToPattern;
    var pieces, patterns := Split(value, ','), ParseNoProxy(value);
    if p :| p in patterns && Matches(p, host) {
      PatternsMembers(pieces, p);
      var piece :| piece in pieces && Trim(piece) != [] && p == ToPattern(Trim(piece));
      PatternBypasses(piece, host);
    }
    if piece :| piece in pieces && Bypasses(piece, host) {
      BypassNeedsEntry(piece, host);
      PatternsMembers(pieces, ToPattern(Trim(piece)));
      PatternBypasses(piece, host);
    }
  }

  lemma BypassNeedsEntry(piece: string, host: string)
    ensures Bypasses(piece, host) ==> Trim(piece) != []
  {
  }

  lemma {:induction false} PaddedTrims(a: string, entry: string, b: string)
    requires forall i :: 0 <= i < |a| ==> a[i] in {' ', '\t'}
    requires forall i :: 0 <= i < |b| ==> b[i] in {' ', '\t'}
    requires entry != [] && Trim(entry) == entry
    ensures Trim(a + entry + b) == entry
    decreases |a| + |b|
  {
    var s := a + entry + b;
    if a != [] {
      assert s[1..] == a[1..] + entry + b;
      PaddedTrims(a[1..], entry, b);
    } else if b != [] {
      assert !IsWhite(entry[0]) by {
        var x, y := TrimIsExact(entry);
      }
      assert s[..|s| - 1] == a + entry + b[..|b| - 1];
      PaddedTrims(a, entry, b[..|b| - 1]);
    } else {
      assert s == entry;
    }
  }

  /** Blanks around the entries of a list do not matter. */
  lemma PaddingIsIgnored(a: string, entry: string, b: string, host: string)
    requires forall i :: 0 <= i < |a| ==> a[i] in {' ', '\t'}
    requires forall i :: 0 <= i < |b| ==> b[i] in {' ', '\t'}
    requires entry != [] && Trim(entry) == entry
    ensures Bypasses(a + entry + b, host) <==> Bypasses(entry, host)
  {
    PaddedTrims(a, entry, b);
  }
}
