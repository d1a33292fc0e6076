/** The map image of a portal: its URL names a marker icon
    `.../marker_images/<team>_<N>res.png`, whose first `_`-separated token
    gives the portal's team and whose second gives its resonator count. */
module MapIcon {
  import opened Results
  import opened JsText
  import opened Agents

  const Marker: string := "/marker_images/"

  /** Characters a regular-expression `.` does not match. */
  predicate IsLineTerminator(c: char) {
    c == '\n' || c == '\r' || c == '\U{2028}' || c == '\U{2029}'
  }

  predicate MarkerAt(url: string, s: int) {
    0 <= s && s + |Marker| <= |url| && url[s..s + |Marker|] == Marker
  }

  predicate PngAt(url: string, p: int) {
    0 <= p && p + 4 <= |url| && url[p..p + 4] == ".png"
  }

  /** The pattern `\/marker_images\/(.+)\.png` matches at `s` with the
      capture ending at `p`: at least one character, none a line terminator. */
  predicate Captures(url: string, s: int, p: int) {
    && MarkerAt(url, s)
    && s + |Marker| < p
    && PngAt(url, p)
    && forall k :: s + |Marker| <= k < p ==> !IsLineTerminator(url[k])
  }

  /** End of the line that starts at `b`: the first line terminator at or
      after `b`, or the end of the text. */
  function LineEnd(url: string, b: nat): (e: nat)
    requires b <= |url|
    ensures b <= e <= |url|
    ensures forall k :: b <= k < e ==> !IsLineTerminator(url[k])
    ensures e < |url| ==> IsLineTerminator(url[e])
    decreases |url| - b
  {
    if b == |url| || IsLineTerminator(url[b]) then b else LineEnd(url, b + 1)
  }

  /** The last ".png" starting at a position in (`b`, `q`]. */
  function LastPng(url: string, b: nat, q: int): (r: Option<nat>)
    ensures r.Some? ==> b < r.value <= q && PngAt(url, r.value)
    ensures r.Some? ==> forall p :: r.value < p <= q ==> !PngAt(url, p)
    ensures r.None? ==> forall p :: b < p <= q ==> !PngAt(url, p)
    decreases q
  {
    if q <= b then None
    else if PngAt(url, q) then Some(q)
    else LastPng(url, b, q - 1)
  }

  /** Where the greedy match starting at `s` ends, if it matches there: the
      last ".png" that ends on the same line. */
  function GreedyEnd(url: string, s: nat): (r: Option<nat>)
    requires MarkerAt(url, s)
    ensures r.Some? ==> Captures(url, s, r.value)
    ensures r.Some? ==> forall p :: Captures(url, s, p) ==> p <= r.value
    ensures r.None? ==> forall p :: !Captures(url, s, p)
  {
    var b := s + |Marker|;
    LastPng(url, b, LineEnd(url, b) - 4)
  }

  /** The leftmost start at or after `s` where the pattern matches, with the
      greedy end of that match. */
  function FindIcon(url: string, s: nat): (r: Option<(nat, nat)>)
    ensures r.Some? ==> s <= r.value.0 && Captures(url, r.value.0, r.value.1)
    ensures r.Some? ==> forall p :: Captures(url, r.value.0, p) ==> p <= r.value.1
    ensures r.Some? ==> forall s', p :: s <= s' < r.value.0 ==> !Captures(url, s', p)
    ensures r.None? ==> forall s', p :: s <= s' ==> !Captures(url, s', p)
    decreases |url| - s
  {
    if s + |Marker| > |url| then None
    else if MarkerAt(url, s) && GreedyEnd(url, s).Some? then Some((s, GreedyEnd(url, s).value))
    else FindIcon(url, s + 1)
  }

  /** The text `url.match(/\/marker_images\/(.+)\.png/)` captures, if it matches. */
  function MarkerIcon(url: string): (r: Option<string>)
    ensures r.None? <==> forall s, p :: !Captures(url, s, p)
    ensures r.Some? ==> exists s, p :: Captures(url, s, p) && r.value == url[s + |Marker|..p]
    ensures r.Some? ==> |r.value| > 0 && forall k :: 0 <= k < |r.value| ==> !IsLineTerminator(r.value[k])
  {
    match FindIcon(url, 0)
    case None => None
    case Some((s, p)) => Some(url[s + |Marker|..p])
  }

  /** The icon-token table. */
  function TokenTeam(token: string): (r: Option<Team>)
    ensures r.Some? ==> IconToken(r.value) == token
    ensures r.None? <==> forall t :: IconToken(t) != token
  {
    if token == "neutral" then Some(Neutral)
    else if token == "enl" then Some(Enlightened)
    else if token == "hum" then Some(Resistance)
    else None
  }

  /** The token each team's icons start with: the inverse of the table. */
  function IconToken(t: Team): string {
    match t
    case Neutral => "neutral"
    case Enlightened => "enl"
    case Resistance => "hum"
  }

  /** Team and resonator count shown by a map icon. */
  datatype MapInfo = MapInfo(team: Team, resonators: int)

  /** The resonator count of an icon: `parseInt(second token) || 0`. */
  function IconResonators(parts: seq<string>): (n: int)
    ensures |parts| < 2 ==> n == 0
    ensures |parts| >= 2 && ParseInt(parts[1]).NaN? ==> n == 0
    ensures |parts| >= 2 && ParseInt(parts[1]).Int? ==> n == ParseInt(parts[1]).value
  {
    if |parts| < 2 then 0
    else
      match ParseInt(parts[1])
      case NaN => 0
      case Int(v) => if v == 0 then 0 else v
  }

  /** An icon `<token>_<N><rest>` shows N resonators, whatever non-digit
      text follows the number. */
  lemma IconResonatorsOf(token: string, n: nat, rest: string)
    requires '_' !in token && '_' !in rest
    requires |rest| == 0 || (!IsDigit(rest[0]) && rest[0] != 'x' && rest[0] != 'X')
    ensures IconResonators(Split(token + "_" + (Show(n) + rest), '_')) == n
  {
    SplitHead(token, '_', Show(n) + rest);
    ParseIntShow(n, rest);
  }

  /** An icon `<token>_<rest>` whose second token holds no digit shows no
      resonators. */
  lemma IconResonatorsNoDigit(token: string, rest: string)
    requires '_' !in token && '_' !in rest
    requires forall i :: 0 <= i < |rest| ==> !IsDigit(rest[i])
    ensures IconResonators(Split(token + "_" + rest, '_')) == 0
  {
    SplitHead(token, '_', rest);
    assert Split(rest, '_') == [rest];
    ParseIntNoDigit(rest);
  }

  /** `parseMap`, with the team table read as the closed three-entry table
      it is meant to be. */
  function ParseMap(url: string): (r: Result<MapInfo>)
    ensures MarkerIcon(url).None? ==> r.Err? && r.error.Missing?
    ensures MarkerIcon(url).Some? ==>
      (var parts := Split(MarkerIcon(url).value, '_');
       && (r.Err? <==> TokenTeam(parts[0]).None?)
       && (r.Err? ==> r.error == UnknownIconTeam(MarkerIcon(url).value))
       && (r.Ok? ==> IconToken(r.value.team) == parts[0] && r.value.resonators == IconResonators(parts)))
  {
    match MarkerIcon(url)
    case None => Err(Missing("marker icon"))
    case Some(icon) =>
      var parts := Split(icon, '_');
      match TokenTeam(parts[0])
      case None => Err(UnknownIconTeam(icon))
      case Some(team) => Ok(MapInfo(team, IconResonators(parts)))
  }

  /** The capture of a URL holding one marker icon is that icon's name,
      whatever precedes it (without a marker) or follows it (without a ".png"). */
  lemma MarkerIconOf(pre: string, icon: string, post: string)
    requires |icon| > 0 && forall k :: 0 <= k < |icon| ==> !IsLineTerminator(icon[k])
    requires forall s :: 0 <= s < |pre| ==> !MarkerAt(pre + Marker + icon + ".png" + post, s)
    requires forall q :: !PngAt(post, q)
    ensures MarkerIcon(pre + Marker + icon + ".png" + post) == Some(icon)
  {
    var url := pre + Marker + icon + ".png" + post;
    var s := |pre|;
    var p := |pre| + |Marker| + |icon|;
    assert url[s..s + |Marker|] == Marker;
    assert url[p..p + 4] == ".png";
    assert forall k :: s + |Marker| <= k < p ==> url[k] == icon[k - s - |Marker|];
    assert Captures(url, s, p);
    var r := FindIcon(url, 0);
    assert r.Some?;
    assert r.value.0 == s;
    PngDoesNotOverlap(url, p);
    PngInSuffix(pre + Marker + icon + ".png", post);
    assert url[s + |Marker|..p] == icon;
  }

  /** A URL that is just a marker icon captures that icon. */
  lemma MarkerIconBare(icon: string)
    requires |icon| > 0 && forall k :: 0 <= k < |icon| ==> !IsLineTerminator(icon[k])
    ensures MarkerIcon(Marker + icon + ".png") == Some(icon)
  {
    MarkerIconOf("", icon, "");
    assert "" + Marker + icon + ".png" + "" == Marker + icon + ".png";
  }

  /** Two occurrences of ".png" never overlap. */
  lemma PngDoesNotOverlap(url: string, p: int)
    requires PngAt(url, p)
    ensures forall q :: p < q < p + 4 ==> !PngAt(url, q)
  {
    forall q | p < q < p + 4 ensures !PngAt(url, q) {
      assert url[q] == url[p..p + 4][q - p] != '.';
      if q + 4 <= |url| {
        assert url[q..q + 4][0] == url[q];
      }
    }
  }

  /** A ".png" lying wholly inside the second part of a concatenation is one of that part. */
  lemma PngInSuffix(a: string, b: string)
    ensures forall q :: |a| <= q && PngAt(a + b, q) ==> PngAt(b, q - |a|)
  {
    forall q | |a| <= q && PngAt(a + b, q) ensures PngAt(b, q - |a|) {
      assert (a + b)[q..q + 4] == b[q - |a|..q - |a| + 4];
    }
  }

  /** A marker URL for each team decodes to that team; no other first token
      is accepted. */
  lemma ParseMapTeams(url: string, t: Team, rest: string)
    requires MarkerIcon(url) == Some(IconToken(t) + "_" + rest)
    ensures ParseMap(url) == Ok(MapInfo(t, IconResonators(Split(IconToken(t) + "_" + rest, '_'))))
  {
    var parts := Split(IconToken(t) + "_" + rest, '_');
    SplitHead(IconToken(t), '_', rest);
    assert TokenTeam(parts[0]) == Some(t) by {
      assert parts[0] == IconToken(t);
      match t
      case Neutral =>
      case Enlightened =>
      case Resistance =>
    }
  }

  /** An icon `<team token>_<N><rest>` decodes to that team with N resonators. */
  lemma ParseMapIcon(url: string, t: Team, n: nat, rest: string)
    requires MarkerIcon(url) == Some(IconToken(t) + "_" + (Show(n) + rest))
    requires '_' !in rest && (|rest| == 0 || (!IsDigit(rest[0]) && rest[0] != 'x' && rest[0] != 'X'))
    ensures ParseMap(url) == Ok(MapInfo(t, n))
  {
    ParseMapTeams(url, t, Show(n) + rest);
    IconResonatorsOf(IconToken(t), n, rest);
  }

  /** An icon `<team token>_<rest>` without a digit in its second token
      decodes to that team with no resonators. */
  lemma ParseMapIconNoCount(url: string, t: Team, rest: string)
    requires MarkerIcon(url) == Some(IconToken(t) + "_" + rest)
    requires '_' !in rest && forall i :: 0 <= i < |rest| ==> !IsDigit(rest[i])
    ensures ParseMap(url) == Ok(MapInfo(t, 0))
  {
    ParseMapTeams(url, t, rest);
    IconResonatorsNoDigit(IconToken(t), rest);
  }

  // The source reads the team from an object literal indexed by the token,
  // so a token naming a property every object inherits yields that
  // inherited value instead of failing.

  /** What indexing the source's object literal can return: one of its own
      three teams, or a property inherited from `Object.prototype`. */
  datatype TableValue = OwnTeam(team: Team) | Inherited(name: string)

  /** The properties every object literal inherits in a current JavaScript engine. */
  const InheritedNames: set<string> := {
    "constructor", "hasOwnProperty", "isPrototypeOf", "propertyIsEnumerable",
    "toString", "toLocaleString", "valueOf", "__proto__",
    "__defineGetter__", "__defineSetter__", "__lookupGetter__", "__lookupSetter__"}

  /** No inherited name holds a comma. */
  lemma InheritedNamesCommaFree()
    ensures forall n :: n in InheritedNames ==> ',' !in n
  {
  }

  /** No inherited name is one of the three team tokens. */
  lemma InheritedNamesNotTeams()
    ensures forall n :: n in InheritedNames ==> TokenTeam(n).None?
  {
  }

  /** Indexing the object literal: own entries first, then inherited ones;
      every inherited value is truthy, so only other tokens fail. */
  function TableLookupAsWritten(token: string): (r: Option<TableValue>)
    ensures TokenTeam(token).Some? ==> r == Some(OwnTeam(TokenTeam(token).value))
    ensures r.None? <==> TokenTeam(token).None? && token !in InheritedNames
  {
    match TokenTeam(token)
    case Some(t) => Some(OwnTeam(t))
    case None => if token in InheritedNames then Some(Inherited(token)) else None
  }

  /** `parseMap` exactly as written: the table is an object literal. */
  function ParseMapAsWritten(url: string): (r: Result<(TableValue, int)>)
    ensures MarkerIcon(url).Some? ==>
      (var parts := Split(MarkerIcon(url).value, '_');
       r.Ok? <==> TokenTeam(parts[0]).Some? || parts[0] in InheritedNames)
  {
    match MarkerIcon(url)
    case None => Err(Missing("marker icon"))
    case Some(icon) =>
      var parts := Split(icon, '_');
      match TableLookupAsWritten(parts[0])
      case None => Err(UnknownIconTeam(icon))
      case Some(v) => Ok((v, IconResonators(parts)))
  }

  /** An icon whose first token is an inherited name without `_`, such as
      "constructor" in "constructor_4res", passes the source's check with
      the inherited value as its team, while the closed table rejects it. */
  lemma InheritedTokenAccepted(url: string, name: string, rest: string)
    requires MarkerIcon(url) == Some(name + "_" + rest)
    requires name in InheritedNames && '_' !in name
    ensures ParseMapAsWritten(url).Ok? && ParseMapAsWritten(url).value.0 == Inherited(name)
    ensures ParseMap(url) == Err(UnknownIconTeam(name + "_" + rest))
  {
    SplitHead(name, '_', rest);
    InheritedNamesNotTeams();
  }

  /** Where the source and the closed table agree: every token but the
      inherited names. */
  lemma ParseMapAgreesOffInherited(url: string)
    requires MarkerIcon(url).Some? && Split(MarkerIcon(url).value, '_')[0] !in InheritedNames
    ensures ParseMapAsWritten(url).Ok? <==> ParseMap(url).Ok?
    ensures ParseMap(url).Ok? ==>
      ParseMapAsWritten(url).value == (OwnTeam(ParseMap(url).value.team), ParseMap(url).value.resonators)
  {
  }
}
