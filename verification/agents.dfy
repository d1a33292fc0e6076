/** Agent labels: a coloured `<span>` whose text is the agent's name and
    whose colour gives the agent's faction. */
module Agents {
  import opened Results
  import opened JsText
  import opened Dom

  datatype Team = Enlightened | Resistance | Neutral

  /** An agent; `level` is supplied only for the report's subject, and may
      be NaN when the level label does not start with a number. */
  datatype Agent = Agent(name: string, team: Team, level: Option<Num>)

  /** The label colours, as the DOM reports `color:#428f43` and `color:#3679b9`. */
  const EnlightenedColor: string := "rgb(66, 143, 67)"
  const ResistanceColor: string := "rgb(54, 121, 185)"

  /** The colour a team's agents are labelled with; neutral has none. */
  function LabelColor(t: Team): Option<string> {
    match t
    case Enlightened => Some(EnlightenedColor)
    case Resistance => Some(ResistanceColor)
    case Neutral => None
  }

  /** `parseAgent`: the label's text is the name, its colour picks the team
      from the two-entry table, any other colour is an error. A text node
      has no style to read. */
  function ParseAgent(n: Node): (r: Result<Agent>)
    ensures n.Text? ==> r == Err(Missing("style"))
    ensures n.Elem? && n.color != EnlightenedColor && n.color != ResistanceColor ==> r == Err(AgentParseError)
    ensures r.Ok? <==> n.Elem? && (n.color == EnlightenedColor || n.color == ResistanceColor)
    ensures r.Ok? ==> r.value.name == TextContent(n) && r.value.level == None
    ensures r.Ok? ==> LabelColor(r.value.team) == Some(n.color)
  {
    match n
    case Text(_) => Err(Missing("style"))
    case Elem(color, _) =>
      if color == EnlightenedColor then Ok(Agent(TextContent(n), Enlightened, None))
      else if color == ResistanceColor then Ok(Agent(TextContent(n), Resistance, None))
      else Err(AgentParseError)
  }

  /** `parseAgent` applied to a node that may be absent (`null` or past the
      end of a child list): absence fails like a missing style. */
  function ParseAgentAt(n: Option<Node>): (r: Result<Agent>)
    ensures n.None? ==> r == Err(Missing("agent label"))
    ensures n.Some? ==> r == ParseAgent(n.value)
  {
    match n
    case None => Err(Missing("agent label"))
    case Some(node) => ParseAgent(node)
  }

  /** A label in a team's colour decodes to that team with the label's text
      as name; this is the only way to obtain each team. */
  lemma ParseAgentTeams(name: string, t: Team, children: seq<Node>)
    requires t != Neutral
    requires ConcatText(children) == name
    ensures ParseAgent(Elem(LabelColor(t).value, children)) == Ok(Agent(name, t, None))
  {
  }

  /** No agent is ever neutral: the table has no colour for it. */
  lemma ParseAgentNeverNeutral(n: Node)
    ensures ParseAgent(n).Ok? ==> ParseAgent(n).value.team != Neutral
  {
  }

  /** The selector results of the subject-agent banner: the name label
      (second span) and the level label (last span). */
  datatype AgentBanner = AgentBanner(nameLabel: Option<Node>, levelLabel: Option<Node>)

  /** `parseMainAgent`: the name label decoded by ParseAgent, plus the level
      read from the level label's text after its first character. */
  function ParseMainAgent(b: AgentBanner): (r: Result<Agent>)
    ensures r.Ok? <==> b.nameLabel.Some? && ParseAgent(b.nameLabel.value).Ok? && b.levelLabel.Some?
    ensures r.Ok? ==>
      (var a := ParseAgent(b.nameLabel.value).value;
       r.value.name == a.name && r.value.team == a.team && r.value.level.Some?)
  {
    var agent :- ParseAgentAt(b.nameLabel);
    match b.levelLabel
    case None => Err(Missing("level label"))
    case Some(span) => Ok(agent.(level := Some(ParseInt(Drop(TextContent(span), 1)))))
  }

  /** A level label "L" followed by a run of decimal digits carries their
      value as level. */
  lemma ParseMainAgentLevel(nameLabel: Node, levelLabel: Node, digits: string)
    requires ParseAgent(nameLabel).Ok?
    requires |digits| > 0 && AllDigits(digits)
    requires TextContent(levelLabel) == "L" + digits
    ensures
      (var r := ParseMainAgent(AgentBanner(Some(nameLabel), Some(levelLabel)));
       r.Ok? && r.value.level == Some(Int(DigitsValue(digits))))
  {
    assert Drop(TextContent(levelLabel), 1) == digits;
    ParseIntDigits(digits);
  }

  /** The subject-agent banner of the unit test: "gre" in green, level "L15". */
  lemma ParseMainAgentExample()
    ensures ParseMainAgent(AgentBanner(Some(Elem(EnlightenedColor, [Text("gre")])), Some(Elem("", [Text("L15")]))))
            == Ok(Agent("gre", Enlightened, Some(Int(15))))
  {
    ParseAgentTeams("gre", Enlightened, [Text("gre")]);
    var level := Elem("", [Text("L15")]);
    assert TextContent(level) == "L15" by {
      assert ConcatText([Text("L15")]) == "L15" + ConcatText([]);
    }
    assert "L15" == "L" + "15";
    assert DigitsValue("15") == 15;
    ParseMainAgentLevel(Elem(EnlightenedColor, [Text("gre")]), level, "15");
  }
}
