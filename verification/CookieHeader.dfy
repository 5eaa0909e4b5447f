/** Reading a cookie header (section 5.4 of RFC 6265) into a map, and its inverse printer. */
module CookieHeader {
  import opened Sequences

  datatype Cookie = Cookie(name: string, value: string)

  const REQUIRED_COOKIES: seq<string> := ["SID", "HSID", "OSID", "SSID", "APISID", "SAPISID"]

  /** White space as the host language trims it. */
  predicate IsSpace(c: char) {
    ('\t' <= c <= '\r') || c == ' ' || c == '\U{0085}' || c == '\U{00A0}' || c == '\U{1680}' ||
    ('\U{2000}' <= c <= '\U{200A}') || c == '\U{2028}' || c == '\U{2029}' || c == '\U{202F}' ||
    c == '\U{205F}' || c == '\U{3000}'
  }

  function TrimLeft(s: string): string {
    if s != [] && IsSpace(s[0]) then TrimLeft(s[1..]) else s
  }

  function TrimRight(s: string): string {
    if s != [] && IsSpace(s[|s| - 1]) then TrimRight(s[..|s| - 1]) else s
  }

  function TrimSpace(s: string): string {
    TrimRight(TrimLeft(s))
  }

  /** Position of the first c, or the length when there is none. */
  function IndexOf(s: string, c: char): (k: nat)
    ensures k <= |s| && c !in s[..k] && (k < |s| ==> s[k] == c)
  {
    if s == [] || s[0] == c then 0 else 1 + IndexOf(s[1..], c)
  }

  /** The pieces between separators; always at least one. */
  function Split(s: string, sep: char): (parts: seq<string>)
    ensures parts != []
    decreases |s|
  {
    var k := IndexOf(s, sep);
    if k == |s| then [s] else [s[..k]] + Split(s[k + 1..], sep)
  }

  /** One piece of the header: a pair, or nothing when it has no '=' or an empty side. */
  function ParsePart(part: string): Option<Cookie> {
    var p := TrimSpace(part);
    var k := IndexOf(p, '=');
    if p == "" || k == |p| then None
    else
      var name, value := TrimSpace(p[..k]), TrimSpace(p[k + 1..]);
      if name == "" || value == "" then None else Some(Cookie(name, value))
  }

  ghost predicate AllSpace(s: string) {
    forall c :: c in s ==> IsSpace(c)
  }

  lemma {:induction false} TrimLeftCuts(s: string)
    ensures |TrimLeft(s)| <= |s| && s[|s| - |TrimLeft(s)|..] == TrimLeft(s)
    ensures AllSpace(s[..|s| - |TrimLeft(s)|]) && (TrimLeft(s) != [] ==> !IsSpace(TrimLeft(s)[0]))
  {
    if s != [] && IsSpace(s[0]) {
      TrimLeftCuts(s[1..]);
      var n := |s| - |TrimLeft(s)|;
      assert s[..n] == [s[0]] + s[1..][..n - 1] && s[n..] == s[1..][n - 1..];
    }
  }

  lemma {:induction false} TrimRightCuts(s: string)
    ensures |TrimRight(s)| <= |s| && s[..|TrimRight(s)|] == TrimRight(s)
    ensures AllSpace(s[|TrimRight(s)|..]) && (TrimRight(s) != [] ==> !IsSpace(TrimRight(s)[|TrimRight(s)| - 1]))
  {
    if s != [] && IsSpace(s[|s| - 1]) {
      TrimRightCuts(s[..|s| - 1]);
      var n := |TrimRight(s)|;
      assert s[..n] == s[..|s| - 1][..n] && s[n..] == s[..|s| - 1][n..] + [s[|s| - 1]];
    }
  }

  /** t is s without the white space around it. */
  ghost predicate IsTrimOf(s: string, t: string) {
    (exists before, after :: s == before + t + after && AllSpace(before) && AllSpace(after)) &&
    (t != [] ==> !IsSpace(t[0]) && !IsSpace(t[|t| - 1]))
  }

  lemma TrimSpaceTrims(s: string)
    ensures IsTrimOf(s, TrimSpace(s))
  {
    var l, t := TrimLeft(s), TrimSpace(s);
    TrimLeftCuts(s);
    TrimRightCuts(l);
    TrimmedBetween(s, l, t);
  }

  lemma TrimmedBetween(s: string, l: string, t: string)
    requires |l| <= |s| && s[|s| - |l|..] == l && AllSpace(s[..|s| - |l|]) && (l != [] ==> !IsSpace(l[0]))
    requires |t| <= |l| && l[..|t|] == t && AllSpace(l[|t|..]) && (t != [] ==> !IsSpace(t[|t| - 1]))
    ensures IsTrimOf(s, t)
  {
    var before, after := s[..|s| - |l|], l[|t|..];
    assert s == before + l && l == t + after;
    assert s == before + t + after;
  }

  /** The first '=' of a trimmed piece lies at k. */
  predicate FirstEquals(p: string, k: nat) {
    k < |p| && p[k] == '=' && '=' !in p[..k]
  }

  lemma {:induction false} FirstEqualsIsIndex(p: string, k: nat)
    requires FirstEquals(p, k)
    ensures k == IndexOf(p, '=')
    decreases k
  {
    if k > 0 {
      assert p[0] == p[..k][0] && p[1..][..k - 1] == p[..k][1..];
      FirstEqualsIsIndex(p[1..], k - 1);
    }
  }

  /** A piece names a cookie exactly when, trimmed, both sides of its first '=' hold more than white space. */
  lemma ParsePartIff(part: string, name: string, value: string)
    ensures ParsePart(part) == Some(Cookie(name, value)) <==>
      exists k: nat :: FirstEquals(TrimSpace(part), k) && name != "" && value != "" &&
        name == TrimSpace(TrimSpace(part)[..k]) && value == TrimSpace(TrimSpace(part)[k + 1..])
  {
    var p := TrimSpace(part);
    forall k: nat | FirstEquals(p, k) ensures k == IndexOf(p, '=') {
      FirstEqualsIsIndex(p, k);
    }
    if IndexOf(p, '=') < |p| {
      assert FirstEquals(p, IndexOf(p, '='));
    }
  }

  /** Later pieces overwrite earlier ones of the same name. */
  function Collect(parts: seq<string>): map<string, string> {
    if parts == [] then map[]
    else
      var before := Collect(parts[..|parts| - 1]);
      match ParsePart(parts[|parts| - 1])
      case Some(c) => before[c.name := c.value]
      case None => before
  }

  /** What each piece comes to. */
  function Found(parts: seq<string>): seq<Option<Cookie>> {
    seq(|parts|, i requires 0 <= i < |parts| => ParsePart(parts[i]))
  }

  predicate Names(found: Option<Cookie>, name: string) {
    found.Some? && found.value.name == name
  }

  /** The last of the pieces that names this cookie. */
  ghost predicate LastNaming(found: seq<Option<Cookie>>, name: string, i: nat) {
    i < |found| && Names(found[i], name) && forall j :: i < j < |found| ==> !Names(found[j], name)
  }

  /** cookies has the name exactly when some piece names it, with the value of the last one. */
  ghost predicate HasLast(cookies: map<string, string>, found: seq<Option<Cookie>>, name: string) {
    && (name in cookies <==> exists i: nat :: LastNaming(found, name, i))
    && (forall i: nat :: LastNaming(found, name, i) ==> name in cookies && cookies[name] == found[i].value.value)
  }

  lemma HasLastOneMore(cookies: map<string, string>, found: seq<Option<Cookie>>, piece: Option<Cookie>, name: string)
    requires HasLast(cookies, found, name)
    ensures HasLast(
      if piece.Some? then cookies[piece.value.name := piece.value.value] else cookies, found + [piece], name)
  {
    var all := found + [piece];
    assert all[|found|] == piece && forall i :: 0 <= i < |found| ==> all[i] == found[i];
    if Names(piece, name) {
      assert LastNaming(all, name, |found|);
      assert forall i: nat :: LastNaming(all, name, i) ==> i == |found|;
    } else {
      assert forall i: nat :: LastNaming(all, name, i) <==> LastNaming(found, name, i);
    }
  }

  function CollectFound(found: seq<Option<Cookie>>): map<string, string> {
    if found == [] then map[]
    else
      var before, piece := CollectFound(found[..|found| - 1]), found[|found| - 1];
      if piece.Some? then before[piece.value.name := piece.value.value] else before
  }

  lemma {:induction false} CollectIsCollectFound(parts: seq<string>)
    ensures Collect(parts) == CollectFound(Found(parts))
  {
    if parts != [] {
      var early := parts[..|parts| - 1];
      CollectIsCollectFound(early);
      assert Found(parts)[..|parts| - 1] == Found(early);
    }
  }

  lemma {:induction false} FoundIsLast(found: seq<Option<Cookie>>, name: string)
    ensures HasLast(CollectFound(found), found, name)
  {
    if found != [] {
      var early, piece := found[..|found| - 1], found[|found| - 1];
      FoundIsLast(early, name);
      HasLastOneMore(CollectFound(early), early, piece, name);
      assert found == early + [piece];
    }
  }

  /** A cookie is collected exactly when some piece names it, with the value of the last; other pieces are skipped. */
  lemma CollectedIsLast(parts: seq<string>, name: string)
    ensures HasLast(Collect(parts), Found(parts), name)
  {
    CollectIsCollectFound(parts);
    FoundIsLast(Found(parts), name);
  }

  /** No cookie at all is told apart from a set of cookies. */
  function ParseHeader(header: string): Option<map<string, string>> {
    var cookies := Collect(Split(header, ';'));
    if |cookies| == 0 then None else Some(cookies)
  }

  // --- the printer ---

  function PrintPair(c: Cookie): string {
    c.name + "=" + c.value
  }

  /** The pieces of a printed list: each pair after the first has the separator's space before it. */
  function Pieces(pairs: seq<Cookie>): seq<string> {
    seq(|pairs|, i requires 0 <= i < |pairs| => if i == 0 then PrintPair(pairs[0]) else " " + PrintPair(pairs[i]))
  }

  function Join(parts: seq<string>, sep: char): string {
    if parts == [] then ""
    else if |parts| == 1 then parts[0]
    else parts[0] + [sep] + Join(parts[1..], sep)
  }

  /** name=value pairs with "; " between them. */
  function Print(pairs: seq<Cookie>): string {
    Join(Pieces(pairs), ';')
  }

  /** The map a list of pairs stands for, the last of a name winning. */
  function ToMap(pairs: seq<Cookie>): map<string, string> {
    if pairs == [] then map[]
    else ToMap(pairs[..|pairs| - 1])[pairs[|pairs| - 1].name := pairs[|pairs| - 1].value]
  }

  predicate Trimmed(s: string) {
    s != [] && !IsSpace(s[0]) && !IsSpace(s[|s| - 1])
  }

  predicate Printable(c: Cookie) {
    Trimmed(c.name) && Trimmed(c.value) && '=' !in c.name && ';' !in c.name && ';' !in c.value
  }

  lemma TrimmedStays(s: string)
    requires Trimmed(s)
    ensures TrimSpace(s) == s && TrimSpace(" " + s) == s
  {
    assert (" " + s)[1..] == s;
    assert TrimLeft(" " + s) == TrimLeft(s) == s;
  }

  lemma {:induction false} IndexOfNone(s: string, c: char)
    requires c !in s
    ensures IndexOf(s, c) == |s|
  {
    if s != [] {
      assert s[0] in s;
      IndexOfNone(s[1..], c);
    }
  }

  lemma {:induction false} IndexOfAfter(a: string, c: char, b: string)
    requires c !in a
    ensures IndexOf(a + [c] + b, c) == |a|
  {
    if a != [] {
      assert (a + [c] + b)[1..] == a[1..] + [c] + b;
      IndexOfAfter(a[1..], c, b);
    }
  }

  /** A printed pair, with or without the space before it, reads back as itself; the value may contain '='. */
  lemma PairReadsBack(c: Cookie)
    requires Printable(c)
    ensures ParsePart(PrintPair(c)) == Some(c) && ParsePart(" " + PrintPair(c)) == Some(c)
    ensures ';' !in PrintPair(c)
  {
    var p := PrintPair(c);
    assert p[0] == c.name[0] && p[|p| - 1] == c.value[|c.value| - 1];
    TrimmedStays(p);
    assert p == c.name + ['='] + c.value;
    IndexOfAfter(c.name, '=', c.value);
    assert p[..|c.name|] == c.name && p[|c.name| + 1..] == c.value;
    TrimmedStays(c.name);
    TrimmedStays(c.value);
  }

  /** Pieces without the separator come back from splitting their join. */
  lemma {:induction false} SplitOfJoin(parts: seq<string>, sep: char)
    requires parts != [] && forall i :: 0 <= i < |parts| ==> sep !in parts[i]
    ensures Split(Join(parts, sep), sep) == parts
  {
    var first, rest := parts[0], parts[1..];
    if |parts| == 1 {
      IndexOfNone(first, sep);
    } else {
      var s := first + [sep] + Join(rest, sep);
      IndexOfAfter(first, sep, Join(rest, sep));
      assert s[..|first|] == first && s[|first| + 1..] == Join(rest, sep);
      SplitOfJoin(rest, sep);
    }
  }

  lemma {:induction false} PiecesCollect(parts: seq<string>, pairs: seq<Cookie>)
    requires |parts| == |pairs| && forall i :: 0 <= i < |pairs| ==> ParsePart(parts[i]) == Some(pairs[i])
    ensures Collect(parts) == ToMap(pairs)
  {
    if parts != [] {
      var n := |parts| - 1;
      PiecesCollect(parts[..n], pairs[..n]);
    }
  }

  /** Printing pairs and reading the header back gives their map: order is free, and the last of a name wins. */
  lemma PrintThenParse(pairs: seq<Cookie>)
    requires pairs != [] && forall i :: 0 <= i < |pairs| ==> Printable(pairs[i])
    ensures ParseHeader(Print(pairs)) == Some(ToMap(pairs))
  {
    var pieces := Pieces(pairs);
    forall i | 0 <= i < |pairs| ensures ParsePart(pieces[i]) == Some(pairs[i]) && ';' !in pieces[i] {
      PairReadsBack(pairs[i]);
    }
    SplitOfJoin(pieces, ';');
    PiecesCollect(pieces, pairs);
    assert pairs[|pairs| - 1].name in ToMap(pairs);
  }

  /** pairs lists every entry of the map, in any order and any number of times. */
  ghost predicate Spells(pairs: seq<Cookie>, cookies: map<string, string>) {
    (forall i :: 0 <= i < |pairs| ==> pairs[i].name in cookies && cookies[pairs[i].name] == pairs[i].value) &&
    (forall name :: name in cookies ==> Cookie(name, cookies[name]) in pairs)
  }

  lemma {:induction false} ToMapAgrees(pairs: seq<Cookie>, cookies: map<string, string>)
    requires forall i :: 0 <= i < |pairs| ==> pairs[i].name in cookies && cookies[pairs[i].name] == pairs[i].value
    ensures forall name :: name in ToMap(pairs) <==> exists i :: 0 <= i < |pairs| && pairs[i].name == name
    ensures forall name :: name in ToMap(pairs) ==> name in cookies && ToMap(pairs)[name] == cookies[name]
  {
    if pairs != [] {
      var n := |pairs| - 1;
      ToMapAgrees(pairs[..n], cookies);
      forall name ensures name in ToMap(pairs) <==> exists i :: 0 <= i < |pairs| && pairs[i].name == name {
        if i :| 0 <= i < |pairs| && pairs[i].name == name {
          assert i < n ==> pairs[..n][i].name == name;
        }
      }
    }
  }

  /** Every order of printing a map of printable cookies reads back as that map. */
  lemma AnyOrderReadsBack(pairs: seq<Cookie>, cookies: map<string, string>)
    requires Spells(pairs, cookies) && cookies != map[]
    requires forall name :: name in cookies ==> Printable(Cookie(name, cookies[name]))
    ensures ParseHeader(Print(pairs)) == Some(cookies)
  {
    var any :| any in cookies;
    assert Cookie(any, cookies[any]) in pairs;
    forall i | 0 <= i < |pairs| ensures Printable(pairs[i]) {
      assert pairs[i] == Cookie(pairs[i].name, cookies[pairs[i].name]);
    }
    PrintThenParse(pairs);
    ToMapAgrees(pairs, cookies);
    forall name | name in cookies ensures name in ToMap(pairs) {
      assert Cookie(name, cookies[name]) in pairs;
      var i :| 0 <= i < |pairs| && pairs[i] == Cookie(name, cookies[name]);
    }
    assert ToMap(pairs) == cookies;
  }

  // --- whatever was parsed can be printed ---

  lemma {:induction false} TrimLeftEffect(s: string)
    ensures TrimLeft(s) != [] ==> !IsSpace(TrimLeft(s)[0])
    ensures forall c :: c in TrimLeft(s) ==> c in s
  {
    if s != [] && IsSpace(s[0]) {
      TrimLeftEffect(s[1..]);
    }
  }

  lemma {:induction false} TrimRightEffect(s: string)
    ensures TrimRight(s) <= s
    ensures TrimRight(s) != [] ==> !IsSpace(TrimRight(s)[|TrimRight(s)| - 1])
  {
    if s != [] && IsSpace(s[|s| - 1]) {
      TrimRightEffect(s[..|s| - 1]);
    }
  }

  lemma TrimSpaceEffect(s: string)
    ensures TrimSpace(s) != [] ==> Trimmed(TrimSpace(s))
    ensures forall c :: c in TrimSpace(s) ==> c in s
  {
    TrimLeftEffect(s);
    TrimRightEffect(TrimLeft(s));
  }

  lemma {:induction false} SplitHasNoSeparator(s: string, i: nat)
    requires i < |Split(s, ';')|
    ensures ';' !in Split(s, ';')[i]
    decreases |s|
  {
    var k := IndexOf(s, ';');
    if k < |s| && i > 0 {
      SplitHasNoSeparator(s[k + 1..], i - 1);
    }
  }

  lemma ParsedPartIsPrintable(part: string)
    requires ';' !in part && ParsePart(part).Some?
    ensures Printable(ParsePart(part).value)
  {
    var p := TrimSpace(part);
    var k := IndexOf(p, '=');
    TrimSpaceEffect(part);
    TrimSpaceEffect(p[..k]);
    TrimSpaceEffect(p[k + 1..]);
  }

  lemma {:induction false} CollectedArePrintable(parts: seq<string>)
    requires forall i :: 0 <= i < |parts| ==> ';' !in parts[i]
    ensures forall name :: name in Collect(parts) ==> Printable(Cookie(name, Collect(parts)[name]))
  {
    if parts != [] {
      var n := |parts| - 1;
      CollectedArePrintable(parts[..n]);
      var before, last := Collect(parts[..n]), ParsePart(parts[n]);
      if last.Some? {
        ParsedPartIsPrintable(parts[n]);
        assert Collect(parts) == before[last.value.name := last.value.value];
      }
    }
  }

  /** Any header at all: what it parsed to, printed in any order, parses to the same again. */
  lemma ParsedReadsBack(header: string, pairs: seq<Cookie>)
    requires ParseHeader(header).Some? && Spells(pairs, ParseHeader(header).value)
    ensures ParseHeader(Print(pairs)) == ParseHeader(header)
  {
    var parts := Split(header, ';');
    forall i | 0 <= i < |parts| ensures ';' !in parts[i] {
      SplitHasNoSeparator(header, i);
    }
    CollectedArePrintable(parts);
    AnyOrderReadsBack(pairs, ParseHeader(header).value);
  }

  // --- required cookies ---

  function Lookup(cookies: map<string, string>, name: string): string {
    if name in cookies then cookies[name] else ""
  }

  /** The required names among the first n whose cookie is absent or blank, in the order they are listed. */
  function MissingAmong(cookies: map<string, string>, n: nat): seq<string>
    requires n <= |REQUIRED_COOKIES|
  {
    if n == 0 then []
    else
      var name := REQUIRED_COOKIES[n - 1];
      MissingAmong(cookies, n - 1) + (if TrimSpace(Lookup(cookies, name)) == "" then [name] else [])
  }

  function Missing(cookies: map<string, string>): seq<string> {
    MissingAmong(cookies, |REQUIRED_COOKIES|)
  }

  /** The missing list survives a trip through the header, whatever order it was printed in. */
  lemma MissingSurvivesTheTrip(pairs: seq<Cookie>, cookies: map<string, string>)
    requires Spells(pairs, cookies)
    requires forall name :: name in cookies ==> Printable(Cookie(name, cookies[name]))
    ensures ParseHeader(Print(pairs)).None? <==> cookies == map[]
    ensures Missing(CookiesOf(ParseHeader(Print(pairs)))) == Missing(cookies)
  {
    if cookies == map[] {
      NothingIsSpelled(pairs);
      assert Pieces(pairs) == [] && Print(pairs) == "";
      NothingIsParsed();
    } else {
      AnyOrderReadsBack(pairs, cookies);
    }
  }

  function FirstOf(pairs: seq<Cookie>): Option<Cookie> {
    if pairs == [] then None else Some(pairs[0])
  }

  lemma NothingIsSpelled(pairs: seq<Cookie>)
    requires Spells(pairs, map[])
    ensures pairs == []
  {
    var first := FirstOf(pairs);
  }

  lemma NothingIsParsed()
    ensures ParseHeader("").None?
  {
    assert Split("", ';') == [""] && [""][..0] == [];
    assert ParsePart("").None? && Collect([""]) == Collect([]);
  }

  /** No header and an empty header both stand for no cookies. */
  function CookiesOf(parsed: Option<map<string, string>>): map<string, string> {
    if parsed.Some? then parsed.value else map[]
  }

  lemma {:induction false} MissingNames(cookies: map<string, string>, n: nat, name: string)
    requires n <= |REQUIRED_COOKIES|
    ensures name in MissingAmong(cookies, n) <==>
      name in REQUIRED_COOKIES[..n] && TrimSpace(Lookup(cookies, name)) == ""
  {
    if n > 0 {
      MissingNames(cookies, n - 1, name);
      assert REQUIRED_COOKIES[..n] == REQUIRED_COOKIES[..n - 1] + [REQUIRED_COOKIES[n - 1]];
    }
  }

  // --- the readers themselves ---

  method ParseCookieHeader(header: string) returns (cookies: Option<map<string, string>>)
    ensures cookies == ParseHeader(header)
  {
    var out: map<string, string> := map[];
    var parts := Split(header, ';');
    for i := 0 to |parts|
      invariant out == Collect(parts[..i])
    {
      assert parts[..i + 1][..i] == parts[..i];
      var part := TrimSpace(parts[i]);
      if part != "" {
        var k := IndexOf(part, '=');
        if k < |part| {
          var name, value := TrimSpace(part[..k]), TrimSpace(part[k + 1..]);
          if name != "" && value != "" {
            out := out[name := value];
          }
        }
      }
    }
    assert parts[..|parts|] == parts;
    cookies := if |out| == 0 then None else Some(out);
  }

  method MissingGaiaCookies(cookies: map<string, string>) returns (missing: seq<string>)
    ensures missing == Missing(cookies)
    ensures forall name :: name in missing <==> name in REQUIRED_COOKIES && TrimSpace(Lookup(cookies, name)) == ""
  {
    missing := [];
    for i := 0 to |REQUIRED_COOKIES|
      invariant missing == MissingAmong(cookies, i)
    {
      if TrimSpace(Lookup(cookies, REQUIRED_COOKIES[i])) == "" {
        missing := missing + [REQUIRED_COOKIES[i]];
      }
    }
    assert REQUIRED_COOKIES[..|REQUIRED_COOKIES|] == REQUIRED_COOKIES;
    forall name ensures name in missing <==> name in REQUIRED_COOKIES && TrimSpace(Lookup(cookies, name)) == "" {
      MissingNames(cookies, |REQUIRED_COOKIES|, name);
    }
  }
}
