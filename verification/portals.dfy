/** Portals: a pair of rows, the first with a link to the portal's
    coordinates and its address, the second with the portal image and the
    map image. */
module Portals {
  import opened Results
  import opened JsText
  import opened Dom
  import opened Agents
  import opened MapIcon

  /** A coordinate as the text of one comma-separated part of `pll`, or
      Undefined when `pll` has no second part. */
  datatype Coord = Coord(text: string) | Undefined

  /** A portal record. `resonators` is None when it was overwritten by a
      damage report without a remaining-resonators sentence (undefined);
      `level`, `health` and `owner` are None until a status supplies them. */
  datatype Portal = Portal(
    name: string,
    address: string,
    image: Option<string>,
    latitude: Coord,
    longitude: Coord,
    team: Team,
    resonators: Option<Num>,
    level: Option<int>,
    health: Option<int>,
    owner: Option<string>)

  /** The key of a `key=value` pair: the text before the first `=`. */
  function PairKey(pair: string): string {
    if '=' in pair then pair[..IndexOf(pair, '=')] else pair
  }

  /** The value of a `key=value` pair: the text after the first `=`. */
  function PairValue(pair: string): string {
    if '=' in pair then pair[IndexOf(pair, '=') + 1..] else ""
  }

  /** The values given to `key`, in order. */
  function ValuesOf(pairs: seq<string>, key: string): (vs: seq<string>)
    ensures |vs| <= |pairs|
    ensures (forall i :: 0 <= i < |pairs| ==> PairKey(pairs[i]) != key) <==> |vs| == 0
  {
    if |pairs| == 0 then []
    else if PairKey(pairs[0]) == key then [PairValue(pairs[0])] + ValuesOf(pairs[1..], key)
    else ValuesOf(pairs[1..], key)
  }

  /** `querystring.parse(href)[key]` used as a string: a parameter given
      once is its value; an absent parameter is undefined and a repeated
      one an array, and neither can be split. */
  function QueryParam(href: string, key: string): (r: Result<string>)
    ensures r.Ok? <==> |ValuesOf(Split(href, '&'), key)| == 1
    ensures r.Ok? ==> r.value == ValuesOf(Split(href, '&'), key)[0]
  {
    var vs := ValuesOf(Split(href, '&'), key);
    if |vs| == 1 then Ok(vs[0]) else Err(Missing(key))
  }

  /** What the link row gives: the address and the two coordinates. */
  datatype Location = Location(address: string, latitude: Coord, longitude: Coord)

  /** The link-row half of `parsePortal`: the link's trimmed text, and the
      comma-separated parts of its `pll` parameter. */
  function ParseLocation(tr1: Row): (r: Result<Location>)
    ensures r.Ok? <==>
      && tr1.anchor.Some? && tr1.anchor.value.href.Some?
      && QueryParam(tr1.anchor.value.href.value, "pll").Ok?
    ensures tr1.anchor.None? ==> r == Err(Missing("link"))
    ensures r.Ok? ==>
      (var pll := Split(QueryParam(tr1.anchor.value.href.value, "pll").value, ',');
       && r.value.address == Trim(tr1.anchor.value.text)
       && r.value.latitude == Coord(pll[0])
       && (r.value.longitude == Undefined <==> |pll| == 1)
       && (|pll| > 1 ==> r.value.longitude == Coord(pll[1])))
  {
    match tr1.anchor
    case None => Err(Missing("link"))
    case Some(a) =>
      var address := Trim(a.text);
      match a.href
      case None => Err(Missing("pll"))
      case Some(href) =>
        var pll :- QueryParam(href, "pll");
        var latlng := Split(pll, ',');
        Ok(Location(address, Coord(latlng[0]), if |latlng| > 1 then Coord(latlng[1]) else Undefined))
  }

  /** What the image row gives: the portal's name and image, and the map icon. */
  datatype Picture = Picture(name: string, image: Option<string>, icon: MapInfo)

  /** The image-row half of `parsePortal`: the name is the portal image's
      alt text after its first nine characters ("Portal - "), the image its
      source, and the icon is ParseMap of the map image's source. */
  function ParsePicture(tr2: Row): (r: Result<Picture>)
    ensures r.Ok? <==>
      && tr2.portalImage.Some? && tr2.mapImage.Some? && tr2.mapImage.value.src.Some?
      && ParseMap(tr2.mapImage.value.src.value).Ok?
    ensures (&& tr2.portalImage.Some? && tr2.mapImage.Some? && tr2.mapImage.value.src.Some?
             && ParseMap(tr2.mapImage.value.src.value).Err?)
            ==> r.Err? && r.error == ParseMap(tr2.mapImage.value.src.value).error
    ensures r.Ok? ==>
      && r.value.icon == ParseMap(tr2.mapImage.value.src.value).value
      && r.value.image == tr2.portalImage.value.src
      && (|tr2.portalImage.value.alt| >= 9 ==> tr2.portalImage.value.alt == tr2.portalImage.value.alt[..9] + r.value.name)
      && (|tr2.portalImage.value.alt| < 9 ==> r.value.name == "")
  {
    match (tr2.portalImage, tr2.mapImage)
    case (None, _) => Err(Missing("portal image"))
    case (_, None) => Err(Missing("map image"))
    case (Some(img), Some(marker)) =>
      match marker.src
      case None => Err(Missing("map source"))
      case Some(src) =>
        var icon :- ParseMap(src);
        Ok(Picture(Drop(img.alt, 9), img.src, icon))
  }

  /** `parsePortal`: a portal record from its two rows; level, health and
      owner are left for a status to supply. */
  function ParsePortal(tr1: Row, tr2: Row): (r: Result<Portal>)
    ensures r.Ok? <==> ParseLocation(tr1).Ok? && ParsePicture(tr2).Ok?
    ensures ParseLocation(tr1).Err? ==> r == ParseLocation(tr1).PropagateFailure()
    ensures r.Ok? ==>
      (var loc := ParseLocation(tr1).value;
       var pic := ParsePicture(tr2).value;
       && r.value.name == pic.name && r.value.image == pic.image
       && r.value.address == loc.address
       && r.value.latitude == loc.latitude && r.value.longitude == loc.longitude
       && r.value.team == pic.icon.team && r.value.resonators == Some(Int(pic.icon.resonators))
       && r.value.level.None? && r.value.health.None? && r.value.owner.None?)
  {
    var loc :- ParseLocation(tr1);
    var pic :- ParsePicture(tr2);
    Ok(Portal(pic.name, loc.address, pic.image, loc.latitude, loc.longitude,
              pic.icon.team, Some(Int(pic.icon.resonators)), None, None, None))
  }

  /** A parameter given once among pairs that do not name it is found. */
  lemma {:induction false} ValuesOfSingle(before: seq<string>, pair: string, after: seq<string>, key: string)
    requires forall i :: 0 <= i < |before| ==> PairKey(before[i]) != key
    requires forall i :: 0 <= i < |after| ==> PairKey(after[i]) != key
    requires PairKey(pair) == key
    ensures ValuesOf(before + [pair] + after, key) == [PairValue(pair)]
  {
    if |before| > 0 {
      assert (before + [pair] + after)[1..] == before[1..] + [pair] + after;
      ValuesOfSingle(before[1..], pair, after, key);
    } else {
      assert (before + [pair] + after)[1..] == after;
    }
  }

  lemma PairOf(key: string, value: string)
    requires '=' !in key
    ensures PairKey(key + "=" + value) == key && PairValue(key + "=" + value) == value
  {
    var pair := key + "=" + value;
    assert pair[|key|] == '=';
    assert pair[..|key|] == key;
    assert IndexOf(pair, '=') == |key|;
    assert pair[|key| + 1..] == value;
  }

  /** The inverse of QueryParam: a query string built from `&`-free pairs in
      which `key` is given once reads back that value. */
  lemma QueryParamOf(before: seq<string>, key: string, value: string, after: seq<string>)
    requires '=' !in key && '&' !in key && '&' !in value
    requires forall i :: 0 <= i < |before| ==> PairKey(before[i]) != key && '&' !in before[i]
    requires forall i :: 0 <= i < |after| ==> PairKey(after[i]) != key && '&' !in after[i]
    ensures QueryParam(Join(before + [key + "=" + value] + after, '&'), key) == Ok(value)
  {
    var pair := key + "=" + value;
    var pairs := before + [pair] + after;
    forall i | 0 <= i < |pairs| ensures '&' !in pairs[i] {
      if i < |before| {
      } else if i == |before| {
        assert '&' !in "=";
      } else {
        assert pairs[i] == after[i - |before| - 1];
      }
    }
    SplitJoin(pairs, '&');
    PairOf(key, value);
    ValuesOfSingle(before, pair, after, key);
  }

  /** A link whose `pll` parameter (given once, see QueryParamOf) holds
      two comma-free coordinates reads back as those coordinates, with the
      link text trimmed as the address. */
  lemma ParseLocationOf(tr1: Row, text: string, href: string, lat: string, lng: string)
    requires ',' !in lat && ',' !in lng
    requires tr1.anchor == Some(Anchor(text, Some(href)))
    requires QueryParam(href, "pll") == Ok(lat + "," + lng)
    ensures ParseLocation(tr1) == Ok(Location(Trim(text), Coord(lat), Coord(lng)))
  {
    SplitPair(lat, lng);
  }

  /** Two comma-free coordinates joined by a comma split back apart. */
  lemma SplitPair(lat: string, lng: string)
    requires ',' !in lat && ',' !in lng
    ensures Split(lat + "," + lng, ',') == [lat, lng]
  {
    SplitHead(lat, ',', lng);
    assert Split(lng, ',') == [lng];
  }

  /** The image alt text with the "Portal - " prefix gives back the name. */
  lemma PortalNameOf(tr1: Row, tr2: Row, name: string)
    requires tr2.portalImage.Some? && tr2.portalImage.value.alt == "Portal - " + name
    requires ParsePortal(tr1, tr2).Ok?
    ensures ParsePortal(tr1, tr2).value.name == name
  {
    var alt := tr2.portalImage.value.alt;
    assert alt[..9] == "Portal - ";
  }
}
