/** Report: the aggregation of a whole damage-report mail. Every group of
    rows yields one damage record; the portals and agents it mentions are
    gathered, merged field by field, into two registries keyed by the
    portal's coordinates and the agent's name. */
module Report {
  import opened Results
  import opened JsText
  import opened Dom
  import opened Agents
  import opened Status
  import opened Damage
  import opened MapIcon
  import opened Portals
  import opened Rows

  /** A coordinate as a template literal renders it. */
  function CoordText(c: Coord): string {
    match c
    case Coord(t) => t
    case Undefined => "undefined"
  }

  /** `portalKey`: the two coordinates joined by a comma. */
  function PortalKey(p: Portal): string {
    CoordText(p.latitude) + "," + CoordText(p.longitude)
  }

  /** A portal's coordinates hold no comma. */
  predicate CommaFree(p: Portal) {
    ',' !in CoordText(p.latitude) && ',' !in CoordText(p.longitude)
  }

  /** The key splits back into the two coordinates it was built from. */
  lemma PortalKeySplit(p: Portal)
    requires CommaFree(p)
    ensures Split(PortalKey(p), ',') == [CoordText(p.latitude), CoordText(p.longitude)]
  {
    SplitHead(CoordText(p.latitude), ',', CoordText(p.longitude));
  }

  /** Two portals with comma-free coordinates share a key exactly when they
      share both coordinate texts. */
  lemma PortalKeyInjective(p: Portal, q: Portal)
    requires CommaFree(p) && CommaFree(q)
    ensures PortalKey(p) == PortalKey(q) <==>
      CoordText(p.latitude) == CoordText(q.latitude) && CoordText(p.longitude) == CoordText(q.longitude)
  {
    PortalKeySplit(p);
    PortalKeySplit(q);
  }

  /** Every portal ParsePortal produces has comma-free coordinates, so its
      key determines them. */
  lemma ParsePortalCommaFree(tr1: Row, tr2: Row)
    requires ParsePortal(tr1, tr2).Ok?
    ensures CommaFree(ParsePortal(tr1, tr2).value)
  {
    var pll := Split(QueryParam(tr1.anchor.value.href.value, "pll").value, ',');
    assert ',' !in pll[0];
    assert |pll| > 1 ==> ',' !in pll[1];
    assert ',' !in "undefined";
  }

  // ---------------------------------------------------------------- agents

  /** Object.assign of a parsed agent onto the recorded one: name and team
      are replaced, the level only when the new record carries one. */
  function MergeAgent(prior: Agent, a: Agent): (r: Agent)
    ensures r.name == a.name && r.team == a.team
    ensures r.level == (if a.level.Some? then a.level else prior.level)
  {
    Agent(a.name, a.team, if a.level.Some? then a.level else prior.level)
  }

  /** `addAgent`: the agent is recorded under its name, merged into the
      record already there, if any; no other entry changes. */
  function AddAgent(agents: map<string, Agent>, a: Agent): (r: map<string, Agent>)
    ensures r.Keys == agents.Keys + {a.name}
    ensures r[a.name].name == a.name && r[a.name].team == a.team
    ensures a.level.Some? ==> r[a.name].level == a.level
    ensures a.level.None? && a.name in agents ==> r[a.name].level == agents[a.name].level
    ensures a.level.None? && a.name !in agents ==> r[a.name].level.None?
    ensures forall k :: k in agents && k != a.name ==> r[k] == agents[k]
  {
    agents[a.name := if a.name in agents then MergeAgent(agents[a.name], a) else a]
  }

  /** Every agent is filed under its own name. */
  predicate NamedAgents(agents: map<string, Agent>) {
    forall k :: k in agents ==> agents[k].name == k
  }

  /** Adding an agent keeps every agent filed under its own name. */
  lemma AddAgentNamed(agents: map<string, Agent>, a: Agent)
    requires NamedAgents(agents)
    ensures NamedAgents(AddAgent(agents, a))
  {
    var r := AddAgent(agents, a);
    forall k | k in r ensures r[k].name == k {
      if k != a.name {
        assert r[k] == agents[k];
      }
    }
  }

  /** Adding the same agent twice is adding it once. */
  lemma AddAgentIdempotent(agents: map<string, Agent>, a: Agent)
    ensures AddAgent(AddAgent(agents, a), a) == AddAgent(agents, a)
  {
    var once := AddAgent(agents, a);
    var twice := AddAgent(once, a);
    assert twice.Keys == once.Keys;
    forall k | k in once ensures twice[k] == once[k] {
      if k == a.name {
        assert twice[k] == MergeAgent(once[k], a);
      }
    }
  }

  /** A later label without a level never erases the subject's level. */
  lemma AddAgentKeepsLevel(agents: map<string, Agent>, a: Agent, b: Agent)
    requires a.name == b.name && a.level.Some? && b.level.None?
    ensures AddAgent(AddAgent(agents, a), b)[a.name] == Agent(b.name, b.team, a.level)
  {
  }

  /** `addAgent` exactly as written: `key in agentsMap` on a plain object
      also sees the members agentsMap inherits. For `__proto__` the lookup
      yields the prototype itself, the merge lands on it and the assignment
      back records nothing; for every other inherited name it yields a
      built-in function, whose `name` cannot be set, and the merge throws. */
  function AddAgentAsWritten(agents: map<string, Agent>, a: Agent): (r: Result<map<string, Agent>>)
    ensures a.name !in InheritedNames ==> r == Ok(AddAgent(agents, a))
    ensures a.name !in agents && a.name == "__proto__" ==> r == Ok(agents)
    ensures a.name !in agents && a.name in InheritedNames - {"__proto__"} ==> r == Err(ReadOnlyName(a.name))
  {
    if a.name in agents then Ok(AddAgent(agents, a))
    else if a.name == "__proto__" then Ok(agents)
    else if a.name in InheritedNames then Err(ReadOnlyName(a.name))
    else Ok(AddAgent(agents, a))
  }

  /** An agent called "constructor" aborts the parse as written, while the
      own-key registry files it like any other. */
  lemma InheritedAgentRejected(agents: map<string, Agent>, team: Team, level: Option<Num>)
    requires "constructor" !in agents
    ensures AddAgentAsWritten(agents, Agent("constructor", team, level)) == Err(ReadOnlyName("constructor"))
    ensures "constructor" in AddAgent(agents, Agent("constructor", team, level))
  {
    assert "constructor" in InheritedNames - {"__proto__"};
  }

  /** An agent called "__proto__" is silently dropped as written. */
  lemma ProtoAgentDropped(agents: map<string, Agent>, team: Team, level: Option<Num>)
    requires "__proto__" !in agents
    ensures AddAgentAsWritten(agents, Agent("__proto__", team, level)) == Ok(agents)
    ensures "__proto__" !in agents.Keys && "__proto__" in AddAgent(agents, Agent("__proto__", team, level)).Keys
  {
  }

  /** A portal key always holds a comma, so no key is an inherited name and
      `key in portalsMap` only ever sees own entries. */
  lemma PortalKeyNotInherited(p: Portal)
    ensures PortalKey(p) !in InheritedNames
  {
    var k := PortalKey(p);
    assert k[|CoordText(p.latitude)|] == ',';
    InheritedNamesCommaFree();
  }

  // --------------------------------------------------------------- portals

  /** Object.assign of a parsed portal onto the recorded one: the fields the
      parse always supplies are replaced (the resonator count even when it
      is undefined); level, health and owner only when a status gave them. */
  function MergePortal(prior: Portal, p: Portal): (r: Portal)
    ensures r.name == p.name && r.address == p.address && r.image == p.image
    ensures r.latitude == p.latitude && r.longitude == p.longitude
    ensures r.team == p.team && r.resonators == p.resonators
    ensures r.level == (if p.level.Some? then p.level else prior.level)
    ensures r.health == (if p.health.Some? then p.health else prior.health)
    ensures r.owner == (if p.owner.Some? then p.owner else prior.owner)
  {
    p.(level := if p.level.Some? then p.level else prior.level,
       health := if p.health.Some? then p.health else prior.health,
       owner := if p.owner.Some? then p.owner else prior.owner)
  }

  /** `addPortal`'s map update: the portal is recorded under its key, merged
      into the record already there, if any; no other entry changes. */
  function AddPortal(portals: map<string, Portal>, p: Portal): (r: map<string, Portal>)
    ensures r.Keys == portals.Keys + {PortalKey(p)}
    ensures
      (var q := r[PortalKey(p)];
       && q.name == p.name && q.address == p.address && q.image == p.image
       && q.latitude == p.latitude && q.longitude == p.longitude
       && q.team == p.team && q.resonators == p.resonators)
    ensures
      (var q := r[PortalKey(p)];
       var prior := if PortalKey(p) in portals then Some(portals[PortalKey(p)]) else None;
       && q.level == (if p.level.Some? || prior.None? then p.level else prior.value.level)
       && q.health == (if p.health.Some? || prior.None? then p.health else prior.value.health)
       && q.owner == (if p.owner.Some? || prior.None? then p.owner else prior.value.owner))
    ensures forall k :: k in portals && k != PortalKey(p) ==> r[k] == portals[k]
  {
    var key := PortalKey(p);
    portals[key := if key in portals then MergePortal(portals[key], p) else p]
  }

  /** Every portal is filed under its own key. */
  predicate KeyedPortals(portals: map<string, Portal>) {
    forall k :: k in portals ==> PortalKey(portals[k]) == k
  }

  /** Adding a portal keeps every portal filed under its own key. */
  lemma AddPortalKeyed(portals: map<string, Portal>, p: Portal)
    requires KeyedPortals(portals)
    ensures KeyedPortals(AddPortal(portals, p))
  {
    var r := AddPortal(portals, p);
    forall k | k in r ensures PortalKey(r[k]) == k {
      if k != PortalKey(p) {
        assert r[k] == portals[k];
      }
    }
  }

  /** Adding the same portal twice is adding it once. */
  lemma AddPortalIdempotent(portals: map<string, Portal>, p: Portal)
    ensures AddPortal(AddPortal(portals, p), p) == AddPortal(portals, p)
  {
    var once := AddPortal(portals, p);
    var twice := AddPortal(once, p);
    assert twice.Keys == once.Keys;
    forall k | k in once ensures twice[k] == once[k] {
      if k == PortalKey(p) {
        assert twice[k] == MergePortal(once[k], p);
      }
    }
  }

  /** A status given once survives later sightings of the portal without
      one, while the parsed fields follow the latest sighting. */
  lemma AddPortalKeepsStatus(portals: map<string, Portal>, p: Portal, q: Portal)
    requires PortalKey(p) == PortalKey(q)
    requires p.level.Some? && p.health.Some? && p.owner.Some?
    requires q.level.None? && q.health.None? && q.owner.None?
    ensures AddPortal(AddPortal(portals, p), q)[PortalKey(p)] ==
            q.(level := p.level, health := p.health, owner := p.owner)
  {
  }

  // ------------------------------------------------------------ aggregation

  /** The two registries: agents by name, portals by key. */
  datatype Registry = Registry(agents: map<string, Agent>, portals: map<string, Portal>)

  /** The registries' invariant: entries are filed under their own names
      and keys, and every portal owner is a registered agent. */
  predicate Sound(reg: Registry) {
    && NamedAgents(reg.agents)
    && KeyedPortals(reg.portals)
    && forall k :: k in reg.portals && reg.portals[k].owner.Some? ==> reg.portals[k].owner.value in reg.agents
  }

  /** Registries only grow. */
  predicate Grows(before: Registry, after: Registry) {
    before.agents.Keys <= after.agents.Keys && before.portals.Keys <= after.portals.Keys
  }

  /** The first portal of a group as `addPortal` completes it: the damage
      report's remaining-resonator count (undefined included) and the
      status's level, health and owner name; a status without an owner
      cannot be applied. */
  function Claim(p: Portal, d: DamageReport, s: PortalStatus): (r: Result<Portal>)
    ensures r.Ok? <==> s.owner.Some?
    ensures r.Ok? ==>
      && PortalKey(r.value) == PortalKey(p)
      && r.value.name == p.name && r.value.address == p.address && r.value.image == p.image
      && r.value.team == p.team
      && r.value.resonators == d.remaining
      && r.value.level == Some(s.level) && r.value.health == Some(s.health)
      && r.value.owner == Some(s.owner.value.name)
  {
    match s.owner
    case None => Err(Missing("owner"))
    case Some(owner) =>
      Ok(p.(resonators := d.remaining, level := Some(s.level), health := Some(s.health), owner := Some(owner.name)))
  }

  /** `addPortal(portal, damage, status)`: the owner is registered as an
      agent and the completed portal merged into the portal registry. */
  function AddClaimed(reg: Registry, p: Portal, d: DamageReport, s: PortalStatus): (r: Result<Registry>)
    ensures r.Ok? <==> s.owner.Some?
    ensures r.Ok? ==> r.value == Registry(AddAgent(reg.agents, s.owner.value), AddPortal(reg.portals, Claim(p, d, s).value))
  {
    var q :- Claim(p, d, s);
    Ok(Registry(AddAgent(reg.agents, s.owner.value), AddPortal(reg.portals, q)))
  }

  /** The number of portals of a group of n rows from row i on: they are
      read from rows i and i + 1, i + 3 and i + 4, ... while a row follows
      the first of the pair. */
  function PortalCount(n: nat, i: nat): nat {
    if i + 1 < n then (n - i + 1) / 3 else 0
  }

  /** The portal rows of a group from row i on, read in loop order by
      `parse` (ParsePortal in the model); the loop reads them one at a time
      and stops at the first failure. */
  function ParsedPortals(rows: seq<Row>, i: nat, parse: (Row, Row) -> Result<Portal>): (ps: seq<Result<Portal>>)
    ensures |ps| == PortalCount(|rows|, i)
    decreases |rows| - i
  {
    if i + 1 < |rows| then [parse(rows[i], rows[i + 1])] + ParsedPortals(rows, i + 3, parse) else []
  }

  /** The m-th portal read from row i is that of rows i + 3m and i + 3m + 1. */
  lemma {:induction false} ParsedPortalsAt(rows: seq<Row>, i: nat, parse: (Row, Row) -> Result<Portal>, m: nat)
    requires m < |ParsedPortals(rows, i, parse)|
    ensures i + 3 * m + 1 < |rows|
    ensures ParsedPortals(rows, i, parse)[m] == parse(rows[i + 3 * m], rows[i + 3 * m + 1])
    decreases m
  {
    if m > 0 {
      ParsedPortalsAt(rows, i + 3, parse, m - 1);
      assert ParsedPortals(rows, i, parse)[m] == ParsedPortals(rows, i + 3, parse)[m - 1];
      assert i + 3 * m == (i + 3) + 3 * (m - 1);
    }
  }

  /** One sighting: the portal's key and the registries afterwards. */
  datatype Sighting = Sighting(key: string, reg: Registry)

  /** One iteration of the portal loop: the parsed portal is added,
      completed by the damage report and status when it is the group's
      first. */
  function Sight(reg: Registry, parsed: Result<Portal>, first: bool, d: DamageReport, s: PortalStatus): (r: Result<Sighting>)
    ensures r.Ok? <==> parsed.Ok? && (first ==> s.owner.Some?)
    ensures r.Ok? ==> r.value.key == PortalKey(parsed.value)
  {
    var p :- parsed;
    if first then
      var next :- AddClaimed(reg, p, d, s);
      Ok(Sighting(PortalKey(p), next))
    else
      Ok(Sighting(PortalKey(p), reg.(portals := AddPortal(reg.portals, p))))
  }

  /** A visit of a group's portals: the registries afterwards and the keys
      of the portals met, in row order. */
  datatype Visit = Visit(reg: Registry, keys: seq<string>)

  /** The portal loop of one group, from its j-th portal on. */
  function VisitPortals(reg: Registry, ps: seq<Result<Portal>>, j: nat, d: DamageReport, s: PortalStatus): (r: Result<Visit>)
    requires j <= |ps|
    ensures r.Ok? ==> |r.value.keys| == |ps| - j
    decreases |ps| - j
  {
    if j == |ps| then Ok(Visit(reg, []))
    else
      var one :- Sight(reg, ps[j], j == 0, d, s);
      var rest :- VisitPortals(one.reg, ps, j + 1, d, s);
      Ok(Visit(rest.reg, [one.key] + rest.keys))
  }

  /** One damage record: the damaged portal's key, the attacker's name, the
      destroyed resonators and mods, and the keys of the portals at the far
      end of the destroyed links. */
  datatype DamageRecord = DamageRecord(portal: string, attacker: string, resonators: Num, mods: Num, links: seq<string>)

  /** A processed group: the registries afterwards and its record. */
  datatype Outcome = Outcome(reg: Registry, record: DamageRecord)

  /** After the portal loop: the attacker is registered, the destroyed
      links are checked against the portals met, and the record built from
      the first portal's key and the others'. */
  function Conclude(v: Visit, d: DamageReport): (r: Result<Outcome>)
    ensures r.Ok? <==> d.damage.links == Int(|v.keys| - 1) && |v.keys| > 0
    ensures d.damage.links != Int(|v.keys| - 1) ==> r == Err(LinkCountMismatch)
    ensures r.Ok? ==> r.value.record.portal == v.keys[0] && r.value.record.links == v.keys[1..]
    ensures r.Ok? ==>
      && r.value.record.attacker == d.attacker.name
      && r.value.record.resonators == d.damage.resonators && r.value.record.mods == d.damage.mods
    ensures r.Ok? ==> r.value.reg == Registry(AddAgent(v.reg.agents, d.attacker), v.reg.portals)
  {
    if d.damage.links != Int(|v.keys| - 1) then Err(LinkCountMismatch)
    else if |v.keys| == 0 then Err(Missing("portal"))
    else
      Ok(Outcome(Registry(AddAgent(v.reg.agents, d.attacker), v.reg.portals),
                 DamageRecord(v.keys[0], d.attacker.name, d.damage.resonators, d.damage.mods, v.keys[1..])))
  }

  /** A record whose portal, links and attacker are registered. */
  predicate Registered(rec: DamageRecord, reg: Registry) {
    && rec.attacker in reg.agents
    && rec.portal in reg.portals
    && forall m :: 0 <= m < |rec.links| ==> rec.links[m] in reg.portals
  }

  /** The body of the per-group loop: the last row holds the damage text
      and the status; the portals are read, the attacker registered, and
      the destroyed links must number one less than the portals. */
  function ProcessGroup(reg: Registry, rows: seq<Row>): (r: Result<Outcome>)
    ensures |rows| == 0 ==> r.Err?
  {
    if |rows| == 0 then Err(Missing("damage row"))
    else
      var last := rows[|rows| - 1];
      var d :- ParseDamage(last.node);
      var s :- ParseStatus(last.statusBlock);
      var v :- VisitPortals(reg, ParsedPortals(rows, 0, ParsePortal), 0, d, s);
      Conclude(v, d)
  }

  /** The registries and the records gathered so far. */
  datatype Book = Book(reg: Registry, damages: seq<DamageRecord>)

  /** The `forEach` over the groups, in order, with `step` processing one
      group (ProcessGroup in the mail-level parse); the first failure
      aborts. */
  function ProcessGroups(b: Book, groups: seq<seq<Row>>, step: (Registry, seq<Row>) -> Result<Outcome>): (r: Result<Book>)
    ensures r.Ok? ==> |r.value.damages| == |b.damages| + |groups|
    ensures r.Ok? ==> r.value.damages[..|b.damages|] == b.damages
    decreases |groups|
  {
    if |groups| == 0 then Ok(b)
    else
      var o :- step(b.reg, groups[0]);
      var rest :- ProcessGroups(Book(o.reg, b.damages + [o.record]), groups[1..], step);
      assert rest.damages[..|b.damages| + 1][..|b.damages|] == rest.damages[..|b.damages|];
      Ok(rest)
  }

  /** What the whole mail yields: the subject agent's name, the registries
      and one damage record per group. */
  datatype Report = Report(attackee: string, agents: map<string, Agent>, portals: map<string, Portal>, damages: seq<DamageRecord>)

  /** The mail-level parse: the subject agent is registered first, then each
      group of rows is processed in order. */
  function ParseReport(banner: AgentBanner, trs: seq<Row>): (r: Result<Report>)
    ensures ParseMainAgent(banner).Err? ==> r.Err?
    ensures r.Ok? ==>
      && ParseMainAgent(banner).Ok?
      && r.value.attackee == ParseMainAgent(banner).value.name
      && |r.value.damages| == |GetDmgRows(trs)|
  {
    var attackee :- ParseMainAgent(banner);
    var start := Registry(AddAgent(map[], attackee), map[]);
    var b :- ProcessGroups(Book(start, []), GetDmgRows(trs), ProcessGroup);
    Ok(Report(attackee.name, b.reg.agents, b.reg.portals, b.damages))
  }

  // ------------------------------------------------------------ properties

  /** One step of the portal loop: the visit from the j-th portal succeeds
      when its sighting and the visit from the next one do, and its keys
      are the sighting's key followed by the rest. */
  lemma VisitPortalsStep(reg: Registry, ps: seq<Result<Portal>>, j: nat, d: DamageReport, s: PortalStatus)
    requires j < |ps|
    ensures
      (var one := Sight(reg, ps[j], j == 0, d, s);
       && (VisitPortals(reg, ps, j, d, s).Ok? <==>
             one.Ok? && VisitPortals(one.value.reg, ps, j + 1, d, s).Ok?)
       && (VisitPortals(reg, ps, j, d, s).Ok? ==>
             VisitPortals(reg, ps, j, d, s).value.keys
               == [one.value.key] + VisitPortals(one.value.reg, ps, j + 1, d, s).value.keys))
  {
  }

  /** `keys` are the keys of the parsed portals from the j-th on, in order. */
  predicate KeysOf(keys: seq<string>, ps: seq<Result<Portal>>, j: nat) {
    && j <= |ps| && |keys| == |ps| - j
    && forall m :: j <= m < |ps| ==> ps[m].Ok? && keys[m - j] == PortalKey(ps[m].value)
  }

  /** The keys of the j-th parsed portal and the ones after it. */
  lemma KeysOfCons(rest: seq<string>, ps: seq<Result<Portal>>, j: nat)
    requires j < |ps| && ps[j].Ok? && KeysOf(rest, ps, j + 1)
    ensures KeysOf([PortalKey(ps[j].value)] + rest, ps, j)
  {
    var keys := [PortalKey(ps[j].value)] + rest;
    forall m | j < m < |ps| ensures keys[m - j] == PortalKey(ps[m].value) {
      assert keys[m - j] == rest[m - (j + 1)];
    }
  }

  /** The visit meets the parsed portals from the j-th on, in order, each
      under the key of its coordinates. */
  lemma {:induction false} VisitPortalsKeys(reg: Registry, ps: seq<Result<Portal>>, j: nat, d: DamageReport, s: PortalStatus)
    requires j <= |ps|
    requires VisitPortals(reg, ps, j, d, s).Ok?
    ensures KeysOf(VisitPortals(reg, ps, j, d, s).value.keys, ps, j)
    decreases |ps| - j
  {
    if j < |ps| {
      VisitPortalsStep(reg, ps, j, d, s);
      var one := Sight(reg, ps[j], j == 0, d, s).value;
      VisitPortalsKeys(one.reg, ps, j + 1, d, s);
      KeysOfCons(VisitPortals(one.reg, ps, j + 1, d, s).value.keys, ps, j);
    }
  }

  /** Every portal from the j-th on parsed. */
  predicate AllParsed(ps: seq<Result<Portal>>, j: nat) {
    forall m :: j <= m < |ps| ==> ps[m].Ok?
  }

  /** The visit succeeds exactly when every portal from the j-th on parses
      and, when the first portal is among them, the status names an owner. */
  lemma {:induction false} VisitPortalsSucceeds(reg: Registry, ps: seq<Result<Portal>>, j: nat, d: DamageReport, s: PortalStatus)
    requires j <= |ps|
    ensures VisitPortals(reg, ps, j, d, s).Ok? <==> AllParsed(ps, j) && (j == 0 && 0 < |ps| ==> s.owner.Some?)
    decreases |ps| - j
  {
    if j < |ps| {
      var r := Sight(reg, ps[j], j == 0, d, s);
      if r.Ok? {
        VisitPortalsSucceeds(r.value.reg, ps, j + 1, d, s);
        assert VisitPortals(reg, ps, j, d, s).Ok? == VisitPortals(r.value.reg, ps, j + 1, d, s).Ok?;
        assert AllParsed(ps, j) == AllParsed(ps, j + 1);
      } else {
        assert VisitPortals(reg, ps, j, d, s).Err?;
        assert !ps[j].Ok? || (j == 0 && s.owner.None?);
      }
    }
  }

  /** A record reporting damage report `d` over the portals `ps` read from
      the group: the attacker and counts of the report, the first portal's
      key, then the keys of the others, as many as the destroyed links. */
  predicate Reports(rec: DamageRecord, d: DamageReport, ps: seq<Result<Portal>>) {
    && rec.attacker == d.attacker.name
    && rec.resonators == d.damage.resonators && rec.mods == d.damage.mods
    && d.damage.links == Int(|rec.links|)
    && |rec.links| + 1 == |ps|
    && ps[0].Ok? && rec.portal == PortalKey(ps[0].value)
    && forall m :: 0 <= m < |rec.links| ==> ps[m + 1].Ok? && rec.links[m] == PortalKey(ps[m + 1].value)
  }

  /** What a group's record says, independently of the registries: it
      reports the damage report of the group's last row over the portals
      of rows 0 and 1, 3 and 4, 6 and 7, ... */
  predicate Describes(rec: DamageRecord, rows: seq<Row>) {
    && |rows| > 0
    && ParseDamage(rows[|rows| - 1].node).Ok?
    && Reports(rec, ParseDamage(rows[|rows| - 1].node).value, ParsedPortals(rows, 0, ParsePortal))
  }

  /** Concluding a visit that met the portals `ps`, each under its key,
      reports them. */
  lemma ConcludeReports(v: Visit, d: DamageReport, ps: seq<Result<Portal>>)
    requires KeysOf(v.keys, ps, 0)
    requires Conclude(v, d).Ok?
    ensures Reports(Conclude(v, d).value.record, d, ps)
  {
    var rec := Conclude(v, d).value.record;
    forall m | 0 <= m < |rec.links| ensures ps[m + 1].Ok? && rec.links[m] == PortalKey(ps[m + 1].value) {
      assert rec.links[m] == v.keys[m + 1];
    }
  }

  /** The steps of a successful group, by name. */
  lemma ProcessGroupSteps(reg: Registry, rows: seq<Row>)
    requires ProcessGroup(reg, rows).Ok?
    ensures |rows| > 0
    ensures ParseDamage(rows[|rows| - 1].node).Ok? && ParseStatus(rows[|rows| - 1].statusBlock).Ok?
    ensures
      (var d := ParseDamage(rows[|rows| - 1].node).value;
       var s := ParseStatus(rows[|rows| - 1].statusBlock).value;
       var v := VisitPortals(reg, ParsedPortals(rows, 0, ParsePortal), 0, d, s);
       && v.Ok? && Conclude(v.value, d).Ok?
       && ProcessGroup(reg, rows) == Conclude(v.value, d))
  {
  }

  /** Each group's record describes that group. */
  lemma ProcessGroupDescribes(reg: Registry, rows: seq<Row>)
    requires ProcessGroup(reg, rows).Ok?
    ensures Describes(ProcessGroup(reg, rows).value.record, rows)
  {
    ProcessGroupSteps(reg, rows);
    var last := rows[|rows| - 1];
    var d := ParseDamage(last.node).value;
    var ps := ParsedPortals(rows, 0, ParsePortal);
    var s := ParseStatus(last.statusBlock).value;
    VisitPortalsKeys(reg, ps, 0, d, s);
    ConcludeReports(VisitPortals(reg, ps, 0, d, s).value, d, ps);
  }

  lemma AddAgentSound(reg: Registry, a: Agent)
    requires Sound(reg)
    ensures Sound(reg.(agents := AddAgent(reg.agents, a)))
  {
    AddAgentNamed(reg.agents, a);
  }

  lemma AddPortalSound(reg: Registry, p: Portal)
    requires Sound(reg)
    requires p.owner.Some? ==> p.owner.value in reg.agents
    ensures Sound(reg.(portals := AddPortal(reg.portals, p)))
  {
    AddPortalKeyed(reg.portals, p);
    var r := AddPortal(reg.portals, p);
    forall k | k in r && r[k].owner.Some? ensures r[k].owner.value in reg.agents {
      if k != PortalKey(p) {
        assert r[k] == reg.portals[k];
      }
    }
  }

  /** A portal as ParsePortal leaves it carries no level, health or owner yet. */
  predicate Unclaimed(parsed: Result<Portal>) {
    parsed.Ok? ==> parsed.value.level.None? && parsed.value.health.None? && parsed.value.owner.None?
  }

  /** The parsed portals of a group carry no level, health or owner. */
  lemma ParsedPortalsUnclaimed(rows: seq<Row>, i: nat)
    ensures forall m :: 0 <= m < |ParsedPortals(rows, i, ParsePortal)| ==> Unclaimed(ParsedPortals(rows, i, ParsePortal)[m])
  {
    forall m | 0 <= m < |ParsedPortals(rows, i, ParsePortal)| ensures Unclaimed(ParsedPortals(rows, i, ParsePortal)[m]) {
      ParsedPortalsAt(rows, i, ParsePortal, m);
    }
  }

  /** One iteration of the portal loop keeps the registries sound: the
      first portal's owner is registered along with it. */
  lemma SightSound(reg: Registry, parsed: Result<Portal>, first: bool, d: DamageReport, s: PortalStatus)
    requires Sound(reg) && Unclaimed(parsed)
    requires Sight(reg, parsed, first, d, s).Ok?
    ensures Sound(Sight(reg, parsed, first, d, s).value.reg)
  {
    var p := parsed.value;
    if first {
      var withOwner := reg.(agents := AddAgent(reg.agents, s.owner.value));
      AddAgentSound(reg, s.owner.value);
      AddPortalSound(withOwner, Claim(p, d, s).value);
    } else {
      AddPortalSound(reg, p);
    }
  }

  /** What one iteration files: the group's first portal, completed by the
      damage report and the status, replaces any record under its key; a
      later portal is only merged into the portal registry, and the agents
      are left alone. */
  lemma SightFiles(reg: Registry, parsed: Result<Portal>, first: bool, d: DamageReport, s: PortalStatus)
    requires Sight(reg, parsed, first, d, s).Ok?
    ensures
      (var r := Sight(reg, parsed, first, d, s).value;
       && r.key in r.reg.portals
       && (first ==> r.reg.portals[r.key] == Claim(parsed.value, d, s).value)
       && (!first ==> r.reg.agents == reg.agents && r.reg.portals == AddPortal(reg.portals, parsed.value)))
  {
  }

  /** One iteration of the portal loop only lets the registries grow, and
      files the portal under its key. */
  lemma SightGrows(reg: Registry, parsed: Result<Portal>, first: bool, d: DamageReport, s: PortalStatus)
    requires Sight(reg, parsed, first, d, s).Ok?
    ensures Grows(reg, Sight(reg, parsed, first, d, s).value.reg)
    ensures Sight(reg, parsed, first, d, s).value.key in Sight(reg, parsed, first, d, s).value.reg.portals
  {
  }

  /** Every key is filed in `portals`. */
  predicate Filed(keys: seq<string>, portals: map<string, Portal>) {
    forall m :: 0 <= m < |keys| ==> keys[m] in portals
  }

  /** A key filed before the registry grew stays filed, beside the keys
      filed afterwards. */
  lemma FiledCons(key: string, rest: seq<string>, before: Registry, after: Registry)
    requires key in before.portals && Grows(before, after) && Filed(rest, after.portals)
    ensures Filed([key] + rest, after.portals)
  {
    forall m | 0 < m < |rest| + 1 ensures ([key] + rest)[m] in after.portals {
      assert ([key] + rest)[m] == rest[m - 1];
    }
  }

  /** The portal loop only lets the registries grow, and every key it meets
      is filed afterwards. */
  lemma {:induction false} VisitPortalsGrows(reg: Registry, ps: seq<Result<Portal>>, j: nat, d: DamageReport, s: PortalStatus)
    requires j <= |ps|
    requires VisitPortals(reg, ps, j, d, s).Ok?
    ensures Grows(reg, VisitPortals(reg, ps, j, d, s).value.reg)
    ensures Filed(VisitPortals(reg, ps, j, d, s).value.keys, VisitPortals(reg, ps, j, d, s).value.reg.portals)
    decreases |ps| - j
  {
    if j < |ps| {
      VisitPortalsStep(reg, ps, j, d, s);
      var one := Sight(reg, ps[j], j == 0, d, s).value;
      SightGrows(reg, ps[j], j == 0, d, s);
      VisitPortalsGrows(one.reg, ps, j + 1, d, s);
      var rest := VisitPortals(one.reg, ps, j + 1, d, s).value;
      FiledCons(one.key, rest.keys, one.reg, rest.reg);
    }
  }

  /** The portal loop keeps the registries sound. */
  lemma {:induction false} VisitPortalsSound(reg: Registry, ps: seq<Result<Portal>>, j: nat, d: DamageReport, s: PortalStatus)
    requires j <= |ps|
    requires Sound(reg)
    requires forall m :: 0 <= m < |ps| ==> Unclaimed(ps[m])
    requires VisitPortals(reg, ps, j, d, s).Ok?
    ensures Sound(VisitPortals(reg, ps, j, d, s).value.reg)
    decreases |ps| - j
  {
    if j < |ps| {
      SightSound(reg, ps[j], j == 0, d, s);
      VisitPortalsSound(Sight(reg, ps[j], j == 0, d, s).value.reg, ps, j + 1, d, s);
    }
  }

  /** Later sightings of a group's portals keep the status of an entry
      already filed, and leave the entry alone unless one of them has its
      key. */
  lemma {:induction false} VisitPortalsKeepsClaim(reg: Registry, ps: seq<Result<Portal>>, j: nat, d: DamageReport, s: PortalStatus,
                                                  k: string)
    requires 0 < j <= |ps|
    requires forall m :: 0 <= m < |ps| ==> Unclaimed(ps[m])
    requires k in reg.portals
    requires VisitPortals(reg, ps, j, d, s).Ok?
    ensures
      (var v := VisitPortals(reg, ps, j, d, s).value;
       && k in v.reg.portals
       && v.reg.portals[k].level == reg.portals[k].level
       && v.reg.portals[k].health == reg.portals[k].health
       && v.reg.portals[k].owner == reg.portals[k].owner
       && (k !in v.keys ==> v.reg.portals[k] == reg.portals[k]))
    decreases |ps| - j
  {
    if j < |ps| {
      VisitPortalsStep(reg, ps, j, d, s);
      var one := Sight(reg, ps[j], false, d, s).value;
      SightFiles(reg, ps[j], false, d, s);
      VisitPortalsKeepsClaim(one.reg, ps, j + 1, d, s, k);
    }
  }

  /** After a group, the entry of its attacked portal holds the status's
      level, health and owner name, whatever portals of the group followed
      it; it holds the damage report's remaining resonators unless a
      linked portal of the group has the same key. */
  lemma ProcessGroupClaims(reg: Registry, rows: seq<Row>)
    requires ProcessGroup(reg, rows).Ok?
    ensures |rows| > 0
    ensures ParseDamage(rows[|rows| - 1].node).Ok? && ParseStatus(rows[|rows| - 1].statusBlock).Ok?
    ensures
      (var o := ProcessGroup(reg, rows).value;
       var d := ParseDamage(rows[|rows| - 1].node).value;
       var s := ParseStatus(rows[|rows| - 1].statusBlock).value;
       && s.owner.Some? && o.record.portal in o.reg.portals
       && o.reg.portals[o.record.portal].level == Some(s.level)
       && o.reg.portals[o.record.portal].health == Some(s.health)
       && o.reg.portals[o.record.portal].owner == Some(s.owner.value.name)
       && (o.record.portal !in o.record.links ==> o.reg.portals[o.record.portal].resonators == d.remaining))
  {
    ProcessGroupSteps(reg, rows);
    var last := rows[|rows| - 1];
    var d := ParseDamage(last.node).value;
    var s := ParseStatus(last.statusBlock).value;
    var ps := ParsedPortals(rows, 0, ParsePortal);
    ParsedPortalsUnclaimed(rows, 0);
    var v := VisitPortals(reg, ps, 0, d, s).value;
    VisitPortalsStep(reg, ps, 0, d, s);
    var one := Sight(reg, ps[0], true, d, s).value;
    SightFiles(reg, ps[0], true, d, s);
    var rest := VisitPortals(one.reg, ps, 1, d, s).value;
    VisitPortalsKeepsClaim(one.reg, ps, 1, d, s, one.key);
    assert v.keys == [one.key] + rest.keys && v.reg == rest.reg;
    var o := Conclude(v, d).value;
    assert o.record.portal == one.key && o.record.links == rest.keys;
  }

  /** Processing a group keeps the registries sound. */
  lemma ProcessGroupSound(reg: Registry, rows: seq<Row>)
    requires Sound(reg)
    requires ProcessGroup(reg, rows).Ok?
    ensures Sound(ProcessGroup(reg, rows).value.reg)
  {
    var last := rows[|rows| - 1];
    var d := ParseDamage(last.node).value;
    var s := ParseStatus(last.statusBlock).value;
    var v := VisitPortals(reg, ParsedPortals(rows, 0, ParsePortal), 0, d, s).value;
    ParsedPortalsUnclaimed(rows, 0);
    VisitPortalsSound(reg, ParsedPortals(rows, 0, ParsePortal), 0, d, s);
    AddAgentSound(v.reg, d.attacker);
  }

  /** Processing a group only lets the registries grow, and registers the
      attacker and every portal its record names. */
  lemma ProcessGroupGrows(reg: Registry, rows: seq<Row>)
    requires ProcessGroup(reg, rows).Ok?
    ensures Grows(reg, ProcessGroup(reg, rows).value.reg)
    ensures Registered(ProcessGroup(reg, rows).value.record, ProcessGroup(reg, rows).value.reg)
  {
    ProcessGroupSteps(reg, rows);
    var last := rows[|rows| - 1];
    var d := ParseDamage(last.node).value;
    var s := ParseStatus(last.statusBlock).value;
    var v := VisitPortals(reg, ParsedPortals(rows, 0, ParsePortal), 0, d, s).value;
    VisitPortalsGrows(reg, ParsedPortals(rows, 0, ParsePortal), 0, d, s);
    var o := Conclude(v, d).value;
    forall m | 0 <= m < |o.record.links| ensures o.record.links[m] in o.reg.portals {
      assert o.record.links[m] == v.keys[m + 1];
    }
  }

  /** Registration survives growth. */
  lemma RegisteredGrows(rec: DamageRecord, reg: Registry, later: Registry)
    requires Registered(rec, reg) && Grows(reg, later)
    ensures Registered(rec, later)
  {
  }

  /** A group step that keeps the registries sound, only lets them grow
      and registers what its record names. */
  ghost predicate SoundStep(step: (Registry, seq<Row>) -> Result<Outcome>) {
    forall reg, rows :: Sound(reg) && step(reg, rows).Ok? ==>
      && Sound(step(reg, rows).value.reg)
      && Grows(reg, step(reg, rows).value.reg)
      && Registered(step(reg, rows).value.record, step(reg, rows).value.reg)
  }

  lemma ProcessGroupSoundStep()
    ensures SoundStep(ProcessGroup)
  {
    forall reg, rows | Sound(reg) && ProcessGroup(reg, rows).Ok?
      ensures Sound(ProcessGroup(reg, rows).value.reg)
      ensures Grows(reg, ProcessGroup(reg, rows).value.reg)
      ensures Registered(ProcessGroup(reg, rows).value.record, ProcessGroup(reg, rows).value.reg)
    {
      ProcessGroupSound(reg, rows);
      ProcessGroupGrows(reg, rows);
    }
  }

  /** Over all groups, a sound step keeps the registries sound, and every
      record, old and new, stays registered. */
  lemma {:induction false} ProcessGroupsSound(b: Book, groups: seq<seq<Row>>, step: (Registry, seq<Row>) -> Result<Outcome>)
    requires SoundStep(step)
    requires Sound(b.reg)
    requires forall j :: 0 <= j < |b.damages| ==> Registered(b.damages[j], b.reg)
    requires ProcessGroups(b, groups, step).Ok?
    ensures Sound(ProcessGroups(b, groups, step).value.reg)
    ensures Grows(b.reg, ProcessGroups(b, groups, step).value.reg)
    ensures
      (var r := ProcessGroups(b, groups, step).value;
       forall j :: 0 <= j < |r.damages| ==> Registered(r.damages[j], r.reg))
    decreases |groups|
  {
    if |groups| > 0 {
      var o := step(b.reg, groups[0]).value;
      var b1 := Book(o.reg, b.damages + [o.record]);
      forall j | 0 <= j < |b1.damages| ensures Registered(b1.damages[j], b1.reg) {
        if j < |b.damages| {
          RegisteredGrows(b.damages[j], b.reg, o.reg);
        }
      }
      ProcessGroupsSound(b1, groups[1..], step);
    }
  }

  /** Record j bears `holds` to group j, for every j. */
  ghost predicate AllHold(damages: seq<DamageRecord>, groups: seq<seq<Row>>, holds: (DamageRecord, seq<Row>) -> bool) {
    |damages| == |groups| && forall j :: 0 <= j < |groups| ==> holds(damages[j], groups[j])
  }

  lemma AllHoldCons(rec: DamageRecord, damages: seq<DamageRecord>, rows: seq<Row>, groups: seq<seq<Row>>,
                    holds: (DamageRecord, seq<Row>) -> bool)
    requires holds(rec, rows) && AllHold(damages, groups, holds)
    ensures AllHold([rec] + damages, [rows] + groups, holds)
  {
    forall j | 0 <= j < |groups| + 1 ensures holds(([rec] + damages)[j], ([rows] + groups)[j]) {
      if j > 0 {
        assert ([rec] + damages)[j] == damages[j - 1];
        assert ([rows] + groups)[j] == groups[j - 1];
      }
    }
  }

  /** Over all groups, when every successful step's record bears `holds` to
      its group, every record added bears it to its group, in order. */
  lemma {:induction false} ProcessGroupsHold(b: Book, groups: seq<seq<Row>>, step: (Registry, seq<Row>) -> Result<Outcome>,
                                             holds: (DamageRecord, seq<Row>) -> bool)
    requires forall reg, rows :: step(reg, rows).Ok? ==> holds(step(reg, rows).value.record, rows)
    requires ProcessGroups(b, groups, step).Ok?
    ensures AllHold(ProcessGroups(b, groups, step).value.damages[|b.damages|..], groups, holds)
    decreases |groups|
  {
    var r := ProcessGroups(b, groups, step).value;
    if |groups| == 0 {
      assert r.damages[|b.damages|..] == [];
    } else {
      var o := step(b.reg, groups[0]).value;
      var b1 := Book(o.reg, b.damages + [o.record]);
      ProcessGroupsHold(b1, groups[1..], step, holds);
      assert r == ProcessGroups(b1, groups[1..], step).value;
      assert r.damages[..|b1.damages|] == b1.damages;
      assert r.damages[|b.damages|..] == [o.record] + r.damages[|b1.damages|..];
      AllHoldCons(o.record, r.damages[|b1.damages|..], groups[0], groups[1..], holds);
      assert [groups[0]] + groups[1..] == groups;
    }
  }

  /** Every successful group step describes its group. */
  lemma ProcessGroupDescribesAll()
    ensures forall reg, rows :: ProcessGroup(reg, rows).Ok? ==> Describes(ProcessGroup(reg, rows).value.record, rows)
  {
    forall reg, rows | ProcessGroup(reg, rows).Ok? ensures Describes(ProcessGroup(reg, rows).value.record, rows) {
      ProcessGroupDescribes(reg, rows);
    }
  }


  /** The report of a whole mail: the subject is a registered agent, every
      portal is filed under its key with its owner registered, and every
      record's names and keys are registered. */
  lemma ParseReportSound(banner: AgentBanner, trs: seq<Row>)
    requires ParseReport(banner, trs).Ok?
    ensures
      (var r := ParseReport(banner, trs).value;
       && Sound(Registry(r.agents, r.portals))
       && r.attackee in r.agents
       && forall j :: 0 <= j < |r.damages| ==> Registered(r.damages[j], Registry(r.agents, r.portals)))
  {
    var attackee := ParseMainAgent(banner).value;
    var start := Registry(AddAgent(map[], attackee), map[]);
    AddAgentNamed(map[], attackee);
    ProcessGroupSoundStep();
    ProcessGroupsSound(Book(start, []), GetDmgRows(trs), ProcessGroup);
  }

  /** Record j of the report describes group j of GetDmgRows: one record
      per group, in order. */
  lemma ParseReportDescribes(banner: AgentBanner, trs: seq<Row>)
    requires ParseReport(banner, trs).Ok?
    ensures AllHold(ParseReport(banner, trs).value.damages, GetDmgRows(trs), Describes)
  {
    var attackee := ParseMainAgent(banner).value;
    var start := Registry(AddAgent(map[], attackee), map[]);
    ProcessGroupDescribesAll();
    ProcessGroupsHold(Book(start, []), GetDmgRows(trs), ProcessGroup, Describes);
    var r := ProcessGroups(Book(start, []), GetDmgRows(trs), ProcessGroup).value;
    assert r.damages[0..] == r.damages;
  }

}
