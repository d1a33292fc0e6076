/** The damage description of a damage row: sentences such as
    "1 Resonator destroyed by <agent label> at 12:07 hrs GMT" and
    "5 Resonators remaining on this Portal.", spread over text nodes nested
    in elements. */
module Damage {
  import opened Results
  import opened JsText
  import opened Dom
  import opened Agents

  /** The sentence shapes a text node can have. */
  datatype Sentence =
    | LinksDestroyed       // "... Link destroyed by " / "... Links destroyed by "
    | ModsDestroyed        // "... Mod destroyed by " / "... Mods destroyed by "
    | ResonatorsDestroyed  // "... Resonator destroyed by " / "... Resonators destroyed by "
    | Remaining            // "... Resonators remaining on this Portal."
    | NoneRemaining        // "...No remaining Resonators detected on this Portal."
    | Other

  /** Destruction sentences: each is followed by the attacker's label. */
  predicate IsDestruction(k: Sentence) {
    k.LinksDestroyed? || k.ModsDestroyed? || k.ResonatorsDestroyed?
  }

  /** A family of sentence shapes: one shape, every destruction shape, or
      both remaining shapes. */
  datatype Family = Just(kind: Sentence) | AnyDestruction | AnyRemaining

  predicate InFamily(k: Sentence, f: Family) {
    match f
    case Just(kind) => k == kind
    case AnyDestruction => IsDestruction(k)
    case AnyRemaining => k.Remaining? || k.NoneRemaining?
  }

  /** The text ends like a sentence announcing a destruction by an agent. */
  predicate DestructionSuffix(t: string) {
    || EndsWith(t, " Link destroyed by ") || EndsWith(t, " Links destroyed by ")
    || EndsWith(t, " Mod destroyed by ") || EndsWith(t, " Mods destroyed by ")
    || EndsWith(t, " Resonator destroyed by ") || EndsWith(t, " Resonators destroyed by ")
  }

  /** The shape of a text, tested in the source's order; every test is on
      the end of the text. */
  function Classify(t: string): Sentence {
    if EndsWith(t, " Link destroyed by ") || EndsWith(t, " Links destroyed by ") then LinksDestroyed
    else if EndsWith(t, " Mod destroyed by ") || EndsWith(t, " Mods destroyed by ") then ModsDestroyed
    else if EndsWith(t, " Resonator destroyed by ") || EndsWith(t, " Resonators destroyed by ") then ResonatorsDestroyed
    else if EndsWith(t, " Resonators remaining on this Portal.") then Remaining
    else if EndsWith(t, "No remaining Resonators detected on this Portal.") then NoneRemaining
    else Other
  }

  /** A text ending with `e` does not end with an `f` that differs from `e`
      at the `i`-th character from the end. */
  lemma EndingDiffers(t: string, e: string, f: string, i: nat)
    requires EndsWith(t, e)
    requires 0 < i <= |e| && i <= |f| && e[|e| - i] != f[|f| - i]
    ensures !EndsWith(t, f)
  {
  }

  /** "N Link destroyed by " and "N Links destroyed by " are link
      destructions counting N. */
  lemma LinksSentence(n: nat)
    ensures Classify(Show(n) + " Link destroyed by ") == LinksDestroyed
    ensures ParseInt(Show(n) + " Link destroyed by ") == Int(n)
    ensures Classify(Show(n) + " Links destroyed by ") == LinksDestroyed
    ensures ParseInt(Show(n) + " Links destroyed by ") == Int(n)
  {
    var e := " Link destroyed by ";
    assert EndsWith(Show(n) + e, e);
    ParseIntShow(n, e);
    e := " Links destroyed by ";
    assert EndsWith(Show(n) + e, e);
    ParseIntShow(n, e);
  }

  /** "N Mod destroyed by " is a mod destruction counting N. */
  lemma ModSentence(n: nat)
    ensures Classify(Show(n) + " Mod destroyed by ") == ModsDestroyed
    ensures ParseInt(Show(n) + " Mod destroyed by ") == Int(n)
  {
    var e := " Mod destroyed by ";
    var t := Show(n) + e;
    assert EndsWith(t, e);
    EndingDiffers(t, e, " Link destroyed by ", 15);
    EndingDiffers(t, e, " Links destroyed by ", 15);
    ParseIntShow(n, e);
  }

  /** "N Mods destroyed by " is a mod destruction counting N. */
  lemma ModsSentence(n: nat)
    ensures Classify(Show(n) + " Mods destroyed by ") == ModsDestroyed
    ensures ParseInt(Show(n) + " Mods destroyed by ") == Int(n)
  {
    var e := " Mods destroyed by ";
    var t := Show(n) + e;
    assert EndsWith(t, e);
    EndingDiffers(t, e, " Link destroyed by ", 15);
    EndingDiffers(t, e, " Links destroyed by ", 16);
    ParseIntShow(n, e);
  }

  /** A text ending "Resonator destroyed by " is a resonator destruction. */
  lemma ResonatorEnding(t: string)
    requires EndsWith(t, " Resonator destroyed by ")
    ensures Classify(t) == ResonatorsDestroyed
  {
    var e := " Resonator destroyed by ";
    EndingDiffers(t, e, " Link destroyed by ", 15);
    EndingDiffers(t, e, " Links destroyed by ", 15);
    EndingDiffers(t, e, " Mod destroyed by ", 15);
    EndingDiffers(t, e, " Mods destroyed by ", 15);
  }

  /** A text ending "Resonators destroyed by " is a resonator destruction. */
  lemma ResonatorsEnding(t: string)
    requires EndsWith(t, " Resonators destroyed by ")
    ensures Classify(t) == ResonatorsDestroyed
  {
    var e := " Resonators destroyed by ";
    EndingDiffers(t, e, " Link destroyed by ", 15);
    EndingDiffers(t, e, " Links destroyed by ", 16);
    EndingDiffers(t, e, " Mod destroyed by ", 15);
    EndingDiffers(t, e, " Mods destroyed by ", 16);
    EndingDiffers(t, e, " Resonator destroyed by ", 15);
  }

  /** "N Resonator destroyed by " is a resonator destruction counting N. */
  lemma ResonatorSentence(n: nat)
    ensures Classify(Show(n) + " Resonator destroyed by ") == ResonatorsDestroyed
    ensures ParseInt(Show(n) + " Resonator destroyed by ") == Int(n)
  {
    var e := " Resonator destroyed by ";
    assert EndsWith(Show(n) + e, e);
    ResonatorEnding(Show(n) + e);
    ParseIntShow(n, e);
  }

  /** "N Resonators destroyed by " is a resonator destruction counting N. */
  lemma ResonatorsSentence(n: nat)
    ensures Classify(Show(n) + " Resonators destroyed by ") == ResonatorsDestroyed
    ensures ParseInt(Show(n) + " Resonators destroyed by ") == Int(n)
  {
    var e := " Resonators destroyed by ";
    assert EndsWith(Show(n) + e, e);
    ResonatorsEnding(Show(n) + e);
    ParseIntShow(n, e);
  }

  /** A text ending with `e`, whose last character is not a space, ends
      with none of the destruction endings. */
  lemma NotDestruction(t: string, e: string)
    requires EndsWith(t, e) && 0 < |e| && e[|e| - 1] != ' '
    ensures !DestructionSuffix(t)
  {
    EndingDiffers(t, e, " Link destroyed by ", 1);
    EndingDiffers(t, e, " Links destroyed by ", 1);
    EndingDiffers(t, e, " Mod destroyed by ", 1);
    EndingDiffers(t, e, " Mods destroyed by ", 1);
    EndingDiffers(t, e, " Resonator destroyed by ", 1);
    EndingDiffers(t, e, " Resonators destroyed by ", 1);
  }

  /** "N Resonators remaining on this Portal." reports N remaining. */
  lemma RemainingSentence(n: nat)
    ensures Classify(Show(n) + " Resonators remaining on this Portal.") == Remaining
    ensures ParseInt(Show(n) + " Resonators remaining on this Portal.") == Int(n)
  {
    var e := " Resonators remaining on this Portal.";
    var t := Show(n) + e;
    assert EndsWith(t, e);
    NotDestruction(t, e);
    ParseIntShow(n, e);
  }

  /** "No remaining Resonators detected on this Portal." reports none
      remaining, whatever text precedes it in the node. */
  lemma NoneRemainingSentence(pre: string)
    ensures Classify(pre + "No remaining Resonators detected on this Portal.") == NoneRemaining
  {
    var e := "No remaining Resonators detected on this Portal.";
    var t := pre + e;
    assert EndsWith(t, e);
    NotDestruction(t, e);
    EndingDiffers(t, e, " Resonators remaining on this Portal.", 17);
  }

  /** What the walk has gathered so far: the last count of each kind of
      destruction, the remaining resonators (None until a remaining
      sentence is seen) and the last attacker. */
  datatype Tally = Tally(links: Num, mods: Num, resonators: Num, remaining: Option<Num>, attacker: Option<Agent>)

  const Start: Tally := Tally(Int(0), Int(0), Int(0), None, None)

  /** No damage recorded: every destruction count is zero. */
  predicate NoDamage(w: Tally) {
    w.links == Int(0) && w.mods == Int(0) && w.resonators == Int(0)
  }

  /** A count only leaves zero together with an attacker being set. */
  predicate AttackerKnown(w: Tally) {
    w.attacker.None? ==> NoDamage(w)
  }

  /** A text node met by the walk, with the sibling node right after it. */
  datatype Site = Site(text: string, next: Option<Node>)

  /** The effect of one text node: a destruction sentence sets its count to
      the text's leading integer and the attacker to the label after it
      (failing when that is not an agent label); a remaining sentence sets
      the remaining resonators; other text changes nothing. */
  function Step(w: Tally, s: Site): (r: Result<Tally>)
    ensures r.Err? <==> IsDestruction(Classify(s.text)) && ParseAgentAt(s.next).Err?
    ensures r.Err? ==> r.error.AgentParseError? || r.error.Missing?
    ensures r.Ok? && AttackerKnown(w) ==> AttackerKnown(r.value)
  {
    match Classify(s.text)
    case LinksDestroyed =>
      var a :- ParseAgentAt(s.next);
      Ok(w.(links := ParseInt(s.text), attacker := Some(a)))
    case ModsDestroyed =>
      var a :- ParseAgentAt(s.next);
      Ok(w.(mods := ParseInt(s.text), attacker := Some(a)))
    case ResonatorsDestroyed =>
      var a :- ParseAgentAt(s.next);
      Ok(w.(resonators := ParseInt(s.text), attacker := Some(a)))
    case Remaining => Ok(w.(remaining := Some(ParseInt(s.text))))
    case NoneRemaining => Ok(w.(remaining := Some(Int(0))))
    case Other => Ok(w)
  }

  function NextSibling(cs: seq<Node>, i: nat): Option<Node> {
    if i + 1 < |cs| then Some(cs[i + 1]) else None
  }

  /** The recursive `traverse`: the children of `parent` from position `i`
      on, in order; a text child is a sentence, an element child is walked
      in turn. The first failing step aborts the walk. */
  function Traverse(parent: Node, i: nat, w: Tally): (r: Result<Tally>)
    ensures r.Err? ==> r.error.AgentParseError? || r.error.Missing?
    ensures r.Ok? && AttackerKnown(w) ==> AttackerKnown(r.value)
    decreases parent, |Children(parent)| - i
  {
    var cs := Children(parent);
    if i >= |cs| then Ok(w)
    else
      match cs[i]
      case Text(t) =>
        var w' :- Step(w, Site(t, NextSibling(cs, i)));
        Traverse(parent, i + 1, w')
      case Elem(_, _) =>
        var w' :- Traverse(cs[i], 0, w);
        Traverse(parent, i + 1, w')
  }

  /** The text nodes under `parent`, from child `i` on, in document order
      (depth first, children left to right), each with its next sibling. */
  function Sites(parent: Node, i: nat): seq<Site>
    decreases parent, |Children(parent)| - i
  {
    var cs := Children(parent);
    if i >= |cs| then []
    else
      match cs[i]
      case Text(t) => [Site(t, NextSibling(cs, i))] + Sites(parent, i + 1)
      case Elem(_, _) => Sites(cs[i], 0) + Sites(parent, i + 1)
  }

  /** The steps of a sequence of sites, in order, stopping at the first failure. */
  function Run(w: Tally, sites: seq<Site>): Result<Tally>
    decreases |sites|
  {
    if |sites| == 0 then Ok(w)
    else
      var w' :- Step(w, sites[0]);
      Run(w', sites[1..])
  }

  /** Then: run `b` after `a` succeeded. */
  function AndThen(r: Result<Tally>, b: seq<Site>): Result<Tally> {
    match r
    case Ok(w) => Run(w, b)
    case Err(e) => Err(e)
  }

  lemma {:induction false} RunAppend(w: Tally, a: seq<Site>, b: seq<Site>)
    ensures Run(w, a + b) == AndThen(Run(w, a), b)
    decreases |a|
  {
    if |a| > 0 {
      assert (a + b)[0] == a[0];
      assert (a + b)[1..] == a[1..] + b;
      match Step(w, a[0])
      case Ok(w') => RunAppend(w', a[1..], b);
      case Err(_) =>
    } else {
      assert a + b == b;
    }
  }

  /** The recursive walk visits the text nodes exactly in document order. */
  lemma {:induction false} TraverseInDocumentOrder(parent: Node, i: nat, w: Tally)
    ensures Traverse(parent, i, w) == Run(w, Sites(parent, i))
    decreases parent, |Children(parent)| - i
  {
    var cs := Children(parent);
    if i < |cs| {
      match cs[i]
      case Text(t) =>
        var s := Site(t, NextSibling(cs, i));
        assert Sites(parent, i) == [s] + Sites(parent, i + 1);
        assert ([s] + Sites(parent, i + 1))[1..] == Sites(parent, i + 1);
        match Step(w, s) {
          case Ok(w') => TraverseInDocumentOrder(parent, i + 1, w');
          case Err(_) =>
        }
      case Elem(_, _) =>
        TraverseInDocumentOrder(cs[i], 0, w);
        RunAppend(w, Sites(cs[i], 0), Sites(parent, i + 1));
        match Traverse(cs[i], 0, w)
        case Ok(w') => TraverseInDocumentOrder(parent, i + 1, w');
        case Err(_) =>
    }
  }

  /** The texts of a sequence of sites, joined in order. */
  function SiteText(sites: seq<Site>): string
    decreases |sites|
  {
    if |sites| == 0 then "" else sites[0].text + SiteText(sites[1..])
  }

  lemma {:induction false} SiteTextAppend(a: seq<Site>, b: seq<Site>)
    ensures SiteText(a + b) == SiteText(a) + SiteText(b)
    decreases |a|
  {
    if |a| > 0 {
      assert (a + b)[0] == a[0];
      assert (a + b)[1..] == a[1..] + b;
      SiteTextAppend(a[1..], b);
    } else {
      assert a + b == b;
    }
  }

  /** `textContent` reads the same text nodes, in the same order, as the
      walk does: the text of the children from `i` on is the texts of the
      sites from `i` on. */
  lemma {:induction false} TextContentInDocumentOrder(parent: Node, i: nat)
    ensures i <= |Children(parent)| ==> ConcatText(Children(parent)[i..]) == SiteText(Sites(parent, i))
    decreases parent, |Children(parent)| - i
  {
    var cs := Children(parent);
    if i < |cs| {
      assert cs[i..][0] == cs[i] && cs[i..][1..] == cs[i + 1..];
      TextContentInDocumentOrder(parent, i + 1);
      match cs[i]
      case Text(t) =>
        var s := Site(t, NextSibling(cs, i));
        assert Sites(parent, i) == [s] + Sites(parent, i + 1);
        SiteTextAppend([s], Sites(parent, i + 1));
        assert SiteText([s]) == t + SiteText([]);
      case Elem(_, ds) =>
        TextContentInDocumentOrder(cs[i], 0);
        assert Children(cs[i])[0..] == ds;
        SiteTextAppend(Sites(cs[i], 0), Sites(parent, i + 1));
    }
  }

  /** An element's `textContent` is the text of the sentences the walk meets. */
  lemma TextContentIsSiteText(n: Node)
    requires n.Elem?
    ensures TextContent(n) == SiteText(Sites(n, 0))
  {
    TextContentInDocumentOrder(n, 0);
    assert Children(n)[0..] == n.children;
  }

  /** Position `j` holds the last sentence of one of the `kinds`. */
  predicate IsLast(sites: seq<Site>, j: int, f: Family) {
    && 0 <= j < |sites|
    && InFamily(Classify(sites[j].text), f)
    && forall m :: j < m < |sites| ==> !InFamily(Classify(sites[m].text), f)
  }

  /** No sentence of the `kinds` occurs. */
  predicate NoneOf(sites: seq<Site>, f: Family) {
    forall m :: 0 <= m < |sites| ==> !InFamily(Classify(sites[m].text), f)
  }

  /** The walk fails exactly when some destruction sentence is not followed
      by an agent label. */
  lemma {:induction false} RunFails(w: Tally, sites: seq<Site>)
    ensures Run(w, sites).Err? <==>
      exists j :: 0 <= j < |sites| && IsDestruction(Classify(sites[j].text)) && ParseAgentAt(sites[j].next).Err?
    decreases |sites|
  {
    if |sites| > 0 {
      match Step(w, sites[0])
      case Ok(w') =>
        RunFails(w', sites[1..]);
        if exists j :: 0 <= j < |sites| && IsDestruction(Classify(sites[j].text)) && ParseAgentAt(sites[j].next).Err? {
          var j :| 0 <= j < |sites| && IsDestruction(Classify(sites[j].text)) && ParseAgentAt(sites[j].next).Err?;
          assert j > 0;
          assert sites[1..][j - 1] == sites[j];
        }
        if exists j :: 0 <= j < |sites[1..]| && IsDestruction(Classify(sites[1..][j].text)) && ParseAgentAt(sites[1..][j].next).Err? {
          var j :| 0 <= j < |sites[1..]| && IsDestruction(Classify(sites[1..][j].text)) && ParseAgentAt(sites[1..][j].next).Err?;
          assert sites[j + 1] == sites[1..][j];
        }
      case Err(_) =>
    }
  }

  /** Each destruction count is the leading integer of the last sentence of
      its kind, and is left as it was when there is none. */
  lemma {:induction false} RunLastCount(w: Tally, sites: seq<Site>, kind: Sentence)
    requires IsDestruction(kind)
    requires Run(w, sites).Ok?
    ensures forall j :: IsLast(sites, j, Just(kind)) ==> Count(Run(w, sites).value, kind) == ParseInt(sites[j].text)
    ensures NoneOf(sites, Just(kind)) ==> Count(Run(w, sites).value, kind) == Count(w, kind)
    decreases |sites|
  {
    if |sites| > 0 {
      var w' := Step(w, sites[0]).value;
      var rest := sites[1..];
      RunLastCount(w', rest, kind);
      forall j | IsLast(sites, j, Just(kind))
        ensures Count(Run(w, sites).value, kind) == ParseInt(sites[j].text)
      {
        if j == 0 {
          assert NoneOf(rest, Just(kind)) by {
            forall m | 0 <= m < |rest| ensures !InFamily(Classify(rest[m].text), Just(kind)) {
              assert rest[m] == sites[m + 1];
            }
          }
        } else {
          assert IsLast(rest, j - 1, Just(kind)) by {
            forall m | j - 1 < m < |rest| ensures !InFamily(Classify(rest[m].text), Just(kind)) {
              assert rest[m] == sites[m + 1];
            }
          }
        }
      }
      if NoneOf(sites, Just(kind)) {
        assert NoneOf(rest, Just(kind)) by {
          forall m | 0 <= m < |rest| ensures !InFamily(Classify(rest[m].text), Just(kind)) {
            assert rest[m] == sites[m + 1];
          }
        }
        assert Classify(sites[0].text) != kind;
      }
    }
  }

  /** The count a destruction kind sets. */
  function Count(w: Tally, kind: Sentence): Num
    requires IsDestruction(kind)
  {
    match kind
    case LinksDestroyed => w.links
    case ModsDestroyed => w.mods
    case ResonatorsDestroyed => w.resonators
  }

  /** The attacker is the label after the last destruction sentence of any
      kind, and is left as it was when there is none. */
  lemma {:induction false} RunLastAttacker(w: Tally, sites: seq<Site>)
    requires Run(w, sites).Ok?
    ensures forall j :: IsLast(sites, j, AnyDestruction) ==>
      ParseAgentAt(sites[j].next).Ok? && Run(w, sites).value.attacker == Some(ParseAgentAt(sites[j].next).value)
    ensures NoneOf(sites, AnyDestruction) ==> Run(w, sites).value.attacker == w.attacker
    decreases |sites|
  {
    if |sites| > 0 {
      var w' := Step(w, sites[0]).value;
      var rest := sites[1..];
      RunLastAttacker(w', rest);
      forall j | IsLast(sites, j, AnyDestruction)
        ensures ParseAgentAt(sites[j].next).Ok? && Run(w, sites).value.attacker == Some(ParseAgentAt(sites[j].next).value)
      {
        if j == 0 {
          assert NoneOf(rest, AnyDestruction) by {
            forall m | 0 <= m < |rest| ensures !InFamily(Classify(rest[m].text), AnyDestruction) {
              assert rest[m] == sites[m + 1];
            }
          }
        } else {
          assert IsLast(rest, j - 1, AnyDestruction) by {
            forall m | j - 1 < m < |rest| ensures !InFamily(Classify(rest[m].text), AnyDestruction) {
              assert rest[m] == sites[m + 1];
            }
          }
        }
      }
      if NoneOf(sites, AnyDestruction) {
        assert NoneOf(rest, AnyDestruction) by {
          forall m | 0 <= m < |rest| ensures !InFamily(Classify(rest[m].text), AnyDestruction) {
            assert rest[m] == sites[m + 1];
          }
        }
      }
    }
  }

  /** The remaining resonators come from the last remaining sentence: its
      leading integer, or 0 for "No remaining Resonators"; with no such
      sentence they stay as they were. */
  lemma {:induction false} RunLastRemaining(w: Tally, sites: seq<Site>)
    requires Run(w, sites).Ok?
    ensures forall j :: IsLast(sites, j, AnyRemaining) ==>
      Run(w, sites).value.remaining ==
        Some(if Classify(sites[j].text) == Remaining then ParseInt(sites[j].text) else Int(0))
    ensures NoneOf(sites, AnyRemaining) ==> Run(w, sites).value.remaining == w.remaining
    decreases |sites|
  {
    if |sites| > 0 {
      var w' := Step(w, sites[0]).value;
      var rest := sites[1..];
      RunLastRemaining(w', rest);
      forall j | IsLast(sites, j, AnyRemaining)
        ensures Run(w, sites).value.remaining ==
          Some(if Classify(sites[j].text) == Remaining then ParseInt(sites[j].text) else Int(0))
      {
        if j == 0 {
          assert NoneOf(rest, AnyRemaining) by {
            forall m | 0 <= m < |rest| ensures !InFamily(Classify(rest[m].text), AnyRemaining) {
              assert rest[m] == sites[m + 1];
            }
          }
        } else {
          assert IsLast(rest, j - 1, AnyRemaining) by {
            forall m | j - 1 < m < |rest| ensures !InFamily(Classify(rest[m].text), AnyRemaining) {
              assert rest[m] == sites[m + 1];
            }
          }
        }
      }
      if NoneOf(sites, AnyRemaining) {
        assert NoneOf(rest, AnyRemaining) by {
          forall m | 0 <= m < |rest| ensures !InFamily(Classify(rest[m].text), AnyRemaining) {
            assert rest[m] == sites[m + 1];
          }
        }
      }
    }
  }

  /** Destroyed resonators, links and mods of one damage event. */
  datatype DamageCounts = DamageCounts(resonators: Num, links: Num, mods: Num)

  /** `parseDamage`'s result: the counts, the resonators remaining on the
      portal (None when no remaining sentence occurs) and the attacker. */
  datatype DamageReport = DamageReport(damage: DamageCounts, remaining: Option<Num>, attacker: Agent)

  /** `parseDamage`: walk the row, then refuse a row that destroyed nothing. */
  function ParseDamage(row: Node): (r: Result<DamageReport>)
    ensures r.Ok? ==> !(r.value.damage == DamageCounts(Int(0), Int(0), Int(0)))
    ensures r == Err(NoDamageDetected) <==> Run(Start, Sites(row, 0)).Ok? && NoDamage(Run(Start, Sites(row, 0)).value)
    ensures r.Err? && r.error != NoDamageDetected <==> Run(Start, Sites(row, 0)).Err?
    ensures r.Ok? ==>
      (var w := Run(Start, Sites(row, 0)).value;
       && r.value.damage == DamageCounts(w.resonators, w.links, w.mods)
       && r.value.remaining == w.remaining
       && w.attacker == Some(r.value.attacker))
  {
    TraverseInDocumentOrder(row, 0, Start);
    var w :- Traverse(row, 0, Start);
    if NoDamage(w) then Err(NoDamageDetected)
    else Ok(DamageReport(DamageCounts(w.resonators, w.links, w.mods), w.remaining, w.attacker.value))
  }

  /** `parseDamage` in document-order terms: each count comes from the last
      sentence of its kind (zero when there is none), the attacker from the
      label after the last destruction sentence, which always exists, and
      the remaining resonators from the last remaining sentence. */
  lemma ParseDamageLastWins(row: Node)
    requires ParseDamage(row).Ok?
    ensures
      (var d := ParseDamage(row).value;
       var sites := Sites(row, 0);
       && (forall j :: IsLast(sites, j, Just(LinksDestroyed)) ==> d.damage.links == ParseInt(sites[j].text))
       && (NoneOf(sites, Just(LinksDestroyed)) ==> d.damage.links == Int(0))
       && (forall j :: IsLast(sites, j, Just(ModsDestroyed)) ==> d.damage.mods == ParseInt(sites[j].text))
       && (NoneOf(sites, Just(ModsDestroyed)) ==> d.damage.mods == Int(0))
       && (forall j :: IsLast(sites, j, Just(ResonatorsDestroyed)) ==> d.damage.resonators == ParseInt(sites[j].text))
       && (NoneOf(sites, Just(ResonatorsDestroyed)) ==> d.damage.resonators == Int(0))
       && !NoneOf(sites, AnyDestruction)
       && (forall j :: IsLast(sites, j, AnyDestruction) ==> ParseAgentAt(sites[j].next) == Ok(d.attacker))
       && (forall j :: IsLast(sites, j, AnyRemaining) ==>
             d.remaining == Some(if Classify(sites[j].text) == Remaining then ParseInt(sites[j].text) else Int(0)))
       && (NoneOf(sites, AnyRemaining) ==> d.remaining == None))
  {
    var sites := Sites(row, 0);
    RunLastCount(Start, sites, LinksDestroyed);
    RunLastCount(Start, sites, ModsDestroyed);
    RunLastCount(Start, sites, ResonatorsDestroyed);
    RunLastAttacker(Start, sites);
    RunLastRemaining(Start, sites);
  }

  /** `parseDamage` fails exactly when a destruction sentence is not followed
      by an agent label, or when every destruction count is zero. */
  lemma ParseDamageFails(row: Node)
    ensures ParseDamage(row).Err? <==>
      || (exists j :: 0 <= j < |Sites(row, 0)| && IsDestruction(Classify(Sites(row, 0)[j].text))
                      && ParseAgentAt(Sites(row, 0)[j].next).Err?)
      || (Run(Start, Sites(row, 0)).Ok? && NoDamage(Run(Start, Sites(row, 0)).value))
  {
    RunFails(Start, Sites(row, 0));
  }
}
