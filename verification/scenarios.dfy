/** Scenarios: the repository's own helper examples, stated as lemmas about
    the model (tests/helpers.mjs). */
module Scenarios {
  import opened Results
  import opened JsText
  import opened Dom
  import opened Agents
  import opened Status
  import opened Rows
  import opened MapIcon

  // ------------------------------------------------------------ getDmgRows

  /** A row `tr > td > div > text`. */
  function TextRow(t: string): Row {
    Row(Elem("", [Elem("", [Elem("", [Text(t)])])]), None, None, None, None)
  }

  /** The separator row `tr > td` with an empty cell. */
  const Separator: Row := Row(Elem("", [Elem("", [])]), None, None, None, None)

  /** Two header rows, a two-row group, a separator and a one-row group
      give the two groups, of two rows and one. */
  lemma GetDmgRowsExample()
    ensures GetDmgRows([TextRow("AGENT NAME"), TextRow("DAMAGE REPORT"), TextRow("portal name"),
                        TextRow("portal image"), Separator, TextRow("portal name")])
            == [[TextRow("portal name"), TextRow("portal image")], [TextRow("portal name")]]
  {
    var trs := [TextRow("AGENT NAME"), TextRow("DAMAGE REPORT"), TextRow("portal name"),
                TextRow("portal image"), Separator, TextRow("portal name")];
    var groups := [[TextRow("portal name"), TextRow("portal image")], [TextRow("portal name")]];
    assert IsSeparator(Separator);
    assert !IsSeparator(TextRow("portal name")) && !IsSeparator(TextRow("portal image"));
    assert Interleave(groups, [Separator]) == groups[0] + [Separator] + groups[1];
    assert Body(trs) == trs[2..];
    GetDmgRowsUnique(trs, groups, [Separator]);
  }

  // ----------------------------------------------------------- parseStatus

  /** A captured portal's status: level 7, health 98%, owner yoda. */
  lemma ParseStatusCaptured()
    ensures ParseStatus(Some(StatusBlock(7, 98, Some(Elem(EnlightenedColor, [Text("yoda")])))))
            == Ok(PortalStatus(7, 98, Some(Agent("yoda", Enlightened, None))))
  {
    ParseAgentTeams("yoda", Enlightened, [Text("yoda")]);
    ParseStatusBlock(7, 98, Some(Elem(EnlightenedColor, [Text("yoda")])));
  }

  /** An uncaptured portal's status: level 1, health 0%, no owner. */
  lemma ParseStatusUncaptured()
    ensures ParseStatus(Some(StatusBlock(1, 0, None))) == Ok(PortalStatus(1, 0, None))
  {
    ParseStatusBlock(1, 0, None);
  }

  // -------------------------------------------------------------- parseMap

  /** A map URL whose marker icon is `hum_4res` shows a Resistance portal
      with 4 resonators. */
  lemma ParseMapResistanceExample(url: string)
    requires MarkerIcon(url) == Some("hum_4res")
    ensures ParseMap(url) == Ok(MapInfo(Resistance, 4))
  {
    assert Show(4) == "4";
    assert "hum_4res" == IconToken(Resistance) + "_" + (Show(4) + "res");
    ParseMapIcon(url, Resistance, 4, "res");
  }

  /** A map URL whose marker icon is `enl_4res` shows an Enlightened portal
      with 4 resonators. */
  lemma ParseMapEnlightenedExample(url: string)
    requires MarkerIcon(url) == Some("enl_4res")
    ensures ParseMap(url) == Ok(MapInfo(Enlightened, 4))
  {
    assert Show(4) == "4";
    assert "enl_4res" == IconToken(Enlightened) + "_" + (Show(4) + "res");
    ParseMapIcon(url, Enlightened, 4, "res");
  }

  /** A map URL whose marker icon is `neutral_icon` shows a neutral portal
      with no resonators. */
  lemma ParseMapNeutralExample(url: string)
    requires MarkerIcon(url) == Some("neutral_icon")
    ensures ParseMap(url) == Ok(MapInfo(Neutral, 0))
  {
    assert "neutral_icon" == IconToken(Neutral) + "_" + "icon";
    ParseMapIconNoCount(url, Neutral, "icon");
  }
}
