/** The status block of a damage row: "STATUS:", "Level N", "Health: N%"
    and "Owner: " followed by the owner's label, separated by `<br>`s. */
module Status {
  import opened Results
  import opened JsText
  import opened Dom
  import opened Agents

  /** Level and health of the attacked portal, and its owner (None when the
      portal is uncaptured). */
  datatype PortalStatus = PortalStatus(level: int, health: int, owner: Option<Agent>)

  /** True when `t` is exactly `prefix`, one or more decimal digits, then `suffix`. */
  predicate HasShape(t: string, prefix: string, suffix: string) {
    && |prefix| + |suffix| < |t|
    && StartsWith(t, prefix)
    && EndsWith(t, suffix)
    && AllDigits(t[|prefix|..|t| - |suffix|])
  }

  /** The number captured by a pattern `^prefix(\d+)suffix$`, read with
      parseInt (MatchNumberParseInt). */
  function MatchNumber(t: string, prefix: string, suffix: string): (r: Option<nat>)
    ensures r.Some? <==> HasShape(t, prefix, suffix)
  {
    if HasShape(t, prefix, suffix) then Some(DigitsValue(t[|prefix|..|t| - |suffix|])) else None
  }

  /** The captured number is what parseInt reads from the captured digits. */
  lemma MatchNumberParseInt(t: string, prefix: string, suffix: string)
    requires MatchNumber(t, prefix, suffix).Some?
    ensures ParseInt(t[|prefix|..|t| - |suffix|]) == Int(MatchNumber(t, prefix, suffix).value)
  {
    ParseIntDigits(t[|prefix|..|t| - |suffix|]);
  }

  /** The number on the status line at child position `i`; a missing child,
      an element where text is expected, or a line of the wrong shape fails. */
  function LineNumber(cs: seq<Node>, i: nat, prefix: string, suffix: string): (r: Result<nat>)
    ensures r.Ok? <==> i < |cs| && cs[i].Text? && HasShape(cs[i].text, prefix, suffix)
    ensures r.Err? ==> r.error == StatusParseError
    ensures r.Ok? ==> MatchNumber(cs[i].text, prefix, suffix) == Some(r.value)
  {
    if i < |cs| && cs[i].Text? then
      match MatchNumber(cs[i].text, prefix, suffix)
      case Some(n) => Ok(n)
      case None => Err(StatusParseError)
    else
      Err(StatusParseError)
  }

  /** `parseStatus`: level from child 2 ("Level N"), health from child 4
      ("Health: N%"), owner from child 7 when there is one. */
  function ParseStatus(block: Option<Node>): (r: Result<PortalStatus>)
    ensures block.None? ==> r.Err?
    ensures r.Ok? <==>
      && block.Some?
      && (var cs := Children(block.value);
          && 4 < |cs|
          && cs[2].Text? && HasShape(cs[2].text, "Level ", "")
          && cs[4].Text? && HasShape(cs[4].text, "Health: ", "%")
          && (7 < |cs| ==> ParseAgent(cs[7]).Ok?))
    ensures r.Ok? ==>
      (var cs := Children(block.value);
       && MatchNumber(cs[2].text, "Level ", "") == Some(r.value.level)
       && MatchNumber(cs[4].text, "Health: ", "%") == Some(r.value.health)
       && (r.value.owner.None? <==> |cs| <= 7)
       && (7 < |cs| ==> r.value.owner == Some(ParseAgent(cs[7]).value)))
  {
    match block
    case None => Err(Missing("status block"))
    case Some(el) =>
      var cs := Children(el);
      var level :- LineNumber(cs, 2, "Level ", "");
      var health :- LineNumber(cs, 4, "Health: ", "%");
      if 7 < |cs| then
        var owner :- ParseAgent(cs[7]);
        Ok(PortalStatus(level, health, Some(owner)))
      else
        Ok(PortalStatus(level, health, None))
  }

  const Br: Node := Elem("", [])

  /** The status block the report renders for a level, a health and an
      optional owner label. */
  function StatusBlock(level: nat, health: nat, owner: Option<Node>): Node {
    var lines := [Text("STATUS:"), Br, Text("Level " + Show(level)), Br,
                  Text("Health: " + Show(health) + "%"), Br];
    match owner
    case None => Elem("", lines + [Text("Owner: [uncaptured]")])
    case Some(badge) => Elem("", lines + [Text("Owner: "), badge])
  }

  /** A rendered level line reads back as its level. */
  lemma LevelLine(n: nat)
    ensures MatchNumber("Level " + Show(n), "Level ", "") == Some(n)
  {
    var l := "Level " + Show(n);
    assert l[6..|l| - 0] == Show(n);
    assert StartsWith(l, "Level ") && EndsWith(l, "");
  }

  /** A rendered health line reads back as its health. */
  lemma HealthLine(n: nat)
    ensures MatchNumber("Health: " + Show(n) + "%", "Health: ", "%") == Some(n)
  {
    var h := "Health: " + Show(n) + "%";
    assert h[8..|h| - 1] == Show(n);
    assert StartsWith(h, "Health: ") && EndsWith(h, "%");
  }

  /** A block whose level and health lines read as numbers gives them back,
      with the owner read from child 7 when there is one. */
  lemma ReadStatus(color: string, cs: seq<Node>, level: nat, health: nat)
    requires 4 < |cs| && cs[2].Text? && cs[4].Text?
    requires MatchNumber(cs[2].text, "Level ", "") == Some(level)
    requires MatchNumber(cs[4].text, "Health: ", "%") == Some(health)
    requires 7 < |cs| ==> ParseAgent(cs[7]).Ok?
    ensures ParseStatus(Some(Elem(color, cs))) ==
      Ok(PortalStatus(level, health, if 7 < |cs| then Some(ParseAgent(cs[7]).value) else None))
  {
  }

  /** Reading a rendered status block gives back its level, health and owner. */
  lemma ParseStatusBlock(level: nat, health: nat, owner: Option<Node>)
    requires owner.Some? ==> ParseAgent(owner.value).Ok?
    ensures ParseStatus(Some(StatusBlock(level, health, owner))) ==
      Ok(PortalStatus(level, health, if owner.Some? then Some(ParseAgent(owner.value).value) else None))
  {
    var l := "Level " + Show(level);
    var h := "Health: " + Show(health) + "%";
    LevelLine(level);
    HealthLine(health);
    var lines := [Text("STATUS:"), Br, Text(l), Br, Text(h), Br];
    var cs := lines + (if owner.Some? then [Text("Owner: "), owner.value] else [Text("Owner: [uncaptured]")]);
    assert StatusBlock(level, health, owner) == Elem("", cs);
    assert cs[2] == Text(l) && cs[4] == Text(h);
    assert owner.Some? ==> cs[7] == owner.value;
    ReadStatus("", cs, level, health);
  }
}
