# Ingress damage-report extraction, modelled in Dafny

This project models the extraction engine of an Ingress damage-report mail
parser. When an agent's portals are attacked, the game mails a report.

**Report layout.** The report is an HTML table:
- two header rows (the subject agent and a "DAMAGE REPORT" banner);
- then one group of rows per attacked portal, with groups separated by rows whose first cell is empty.

Within a group:
- rows 0 and 1 describe the attacked portal: a link to its coordinates, and its picture with a map marker icon;
- rows 3 and 4, 6 and 7, and so on describe the portals at the far end of the destroyed links;
- the last row holds the damage text and the portal's status.

**What the engine returns.** It produces:
- the subject agent's name;
- a registry of agents keyed by name;
- a registry of portals keyed by `"<latitude>,<longitude>"`;
- one damage record per group.

Any malformed fragment aborts the whole parse.

**Modules.** One module per extractor, in the program's structure:

| module | file | models |
|---|---|---|
| `Results` | results.dfy | the fatal errors as a `Result` type |
| `JsText` | jstext.dfy | the JavaScript string built-ins the extractors call: `parseInt`, `trim`, `split`, `substr` |
| `Dom` | dom.dfy | the document tree, with `textContent` |
| `Agents` | agents.dfy | `parseAgent`, `parseMainAgent` |
| `Status` | status.dfy | `parseStatus` |
| `Damage` | damage.dfy | `parseDamage` and its recursive walk |
| `MapIcon` | mapicon.dfy | `parseMap` and its regular expression |
| `Portals` | portals.dfy | `parsePortal` and the `pll` query parameter |
| `Rows` | rows.dfy | `getDmgRows` |
| `Report` | report.dfy | the mail-level aggregation of `parseMail.js` |
| `Scenarios` | scenarios.dfy | the repository's helper examples |

**Modelling choices.**
- Every thrown exception is an `Err`.
- A `null` or `undefined` the code dereferences is a `Missing` error, with one exception. A status line that is absent or not text is a `StatusParseError`, the same error as a line of the wrong shape (`Status.LineNumber`).
- Selector results (`querySelector`) are fields of a `Row`.
- Numbers read by `parseInt` are `Int(n)` or `NaN`.

**Points of the code the model keeps as they are:**
- A group's portal rows are read stepping by three: rows 0 and 1, then 3 and 4, and so on (`parseMail.js:50`).
- An uncaptured attacked portal has owner `null`. The code then calls `addAgent(null)`, which throws (`parseMail.js:31-32`). `Report.Claim` fails in that case.
- Whether a portal is owned is decided only by whether child 7 of the status block exists. A child 7 that is not an agent label fails the parse (`dmgReportHelpers.js:31`).
- Portals are keyed by the text of the `pll` parts, not by parsed floats (see "Left out").

## Model

| member | source | states |
|---|---|---|
| Rows.GetDmgRows | dmgReportHelpers.js:3-18 | after the two header rows, the groups number one more than the separator rows, none holds a separator, and gluing them back with the separators in between gives the rows back |
| Rows.GetDmgRowsUnique | dmgReportHelpers.js:8-16 | any split of the rows into separator-free groups and separators that glues back into them is the one getDmgRows returns, so the groups are fully determined |
| Rows.CutGlue | dmgReportHelpers.js:8-16 | the scan from any position, with its open group, yields groups that glue back, with the separators ahead, into the rows from the group's start |
| Rows.CutClean | dmgReportHelpers.js:11-13 | the scan never puts a separator row into a group |
| Rows.CutCount | dmgReportHelpers.js:8-16 | the scan yields one group more than the separators still ahead |
| Rows.CutOf | dmgReportHelpers.js:8-16 | the scan reproduces any separator-free grouping that glues back into the rows |
| Scenarios.GetDmgRowsExample | tests/helpers.mjs:10-16 | two header rows, two portal rows, a separator and one more row give two groups, of two rows and of one |
| Agents.ParseAgent | dmgReportHelpers.js:81-96 | a label decodes exactly when its colour is one of the two team colours; the name is the label's text; the team is the one whose colour the label has; any other colour is an agent parse error |
| Agents.ParseAgentAt | dmgReportHelpers.js:44 | an absent label (a missing next sibling) fails; a present one decodes as ParseAgent |
| Agents.ParseAgentTeams | tests/helpers.mjs:18-23 | a label in a team's colour decodes to that team with its text as name |
| Agents.ParseAgentNeverNeutral | dmgReportHelpers.js:83-95 | no decoded agent is neutral |
| Agents.ParseMainAgent | dmgReportHelpers.js:20-25 | the subject agent decodes exactly when the name label decodes and a level label exists; it keeps the label's name and team and always carries a level |
| Agents.ParseMainAgentLevel | dmgReportHelpers.js:23 | a level label "L" followed by decimal digits gives their value as level |
| Agents.ParseMainAgentExample | tests/helpers.mjs:93-99 | the banner with "gre" in green and "L15" gives an enlightened agent "gre" of level 15 |
| Status.MatchNumber | dmgReportHelpers.js:29-30 | a number is captured exactly when the line is the prefix, one or more digits and the suffix |
| Status.MatchNumberParseInt | dmgReportHelpers.js:29-30 | the captured number is what parseInt reads from the captured digits |
| Status.LineNumber | dmgReportHelpers.js:29-30 | a status line reads exactly when the child exists, is text and has the fixed shape; otherwise it is a status parse error |
| Status.ParseStatus | dmgReportHelpers.js:27-33 | the status decodes exactly when child 2 is "Level N", child 4 is "Health: N%" and child 7, if present, is an agent label; the owner is absent exactly when there is no child 7 |
| Status.LevelLine | dmgReportHelpers.js:29 | a rendered "Level N" line reads back as N |
| Status.HealthLine | dmgReportHelpers.js:30 | a rendered "Health: N%" line reads back as N |
| Status.ReadStatus | dmgReportHelpers.js:27-33 | a block whose level and health lines carry numbers gives those numbers back, with the owner from child 7 when there is one |
| Status.ParseStatusBlock | dmgReportHelpers.js:27-33 | reading a rendered status block gives back its level, health and owner |
| Scenarios.ParseStatusCaptured | tests/helpers.mjs:26 | level 7, health 98% and owner yoda read back as such |
| Scenarios.ParseStatusUncaptured | tests/helpers.mjs:27 | level 1, health 0% and "[uncaptured]" read back with no owner |
| Damage.Classify | dmgReportHelpers.js:42-58 | no contract of its own; how each sentence the mail writes is classified and counted is stated by the sentence lemmas below |
| Damage.LinksSentence | dmgReportHelpers.js:42-43 | "N Link destroyed by " and "N Links destroyed by " are link destructions, and parseInt reads N from them |
| Damage.ModSentence | dmgReportHelpers.js:46-47 | "N Mod destroyed by " is a mod destruction, not a link one, and parseInt reads N from it |
| Damage.ModsSentence | dmgReportHelpers.js:46-47 | "N Mods destroyed by " is a mod destruction, not a link one, and parseInt reads N from it |
| Damage.ResonatorEnding | dmgReportHelpers.js:42-51 | any text ending " Resonator destroyed by " passes the link and mod tests and is a resonator destruction |
| Damage.ResonatorsEnding | dmgReportHelpers.js:42-51 | any text ending " Resonators destroyed by " passes the link and mod tests and is a resonator destruction |
| Damage.ResonatorSentence | dmgReportHelpers.js:50-51 | "N Resonator destroyed by " is a resonator destruction, and parseInt reads N from it |
| Damage.ResonatorsSentence | dmgReportHelpers.js:50-51 | "N Resonators destroyed by " is a resonator destruction, and parseInt reads N from it |
| Damage.NotDestruction | dmgReportHelpers.js:42-53 | a text whose last character is not a space matches none of the three destruction patterns |
| Damage.RemainingSentence | dmgReportHelpers.js:54-55 | "N Resonators remaining on this Portal." is a remaining sentence, and parseInt reads N from it |
| Damage.NoneRemainingSentence | dmgReportHelpers.js:57-58 | any text ending "No remaining Resonators detected on this Portal." is a none-remaining sentence |
| Damage.EndingDiffers | dmgReportHelpers.js:42-58 | a text with one ending cannot have another ending that differs from it at some position from the end |
| Damage.Step | dmgReportHelpers.js:41-59 | one text node fails exactly when it is a destruction sentence not followed by an agent label; a count never leaves zero without an attacker being set |
| Damage.Traverse | dmgReportHelpers.js:37-65 | the recursive walk fails only on a bad or missing attacker label, and keeps "a non-zero count has an attacker" |
| Damage.TraverseInDocumentOrder | dmgReportHelpers.js:37-65 | the recursive walk is exactly the sentence steps over the text nodes in document order |
| Damage.TextContentInDocumentOrder | dmgReportHelpers.js:37-65 | the `textContent` of the children from any position on is the texts of the walk's sentences from there, joined in order |
| Damage.TextContentIsSiteText | dmgReportHelpers.js:37-65 | an element's `textContent` is the texts its walk meets, joined in document order |
| Damage.SiteTextAppend | dmgReportHelpers.js:37-65 | the texts of two runs of sentences are the texts of the first followed by those of the second |
| Dom.TextContent | dmgReportHelpers.js:84 | a text node's `textContent` is its text, and an element's starts with its first child's; that it is every descendant text in document order is `Damage.TextContentIsSiteText` |
| Damage.RunAppend | dmgReportHelpers.js:37-65 | walking two runs of text nodes is walking the first, then the second from where the first left off |
| Damage.RunFails | dmgReportHelpers.js:42-53 | the walk fails exactly when some destruction sentence is not followed by an agent label |
| Damage.RunLastCount | dmgReportHelpers.js:42-53 | each destruction count is the leading integer of the last sentence of its kind, and is unchanged when there is none |
| Damage.RunLastAttacker | dmgReportHelpers.js:42-53 | the attacker is the label after the last destruction sentence of any kind, and is unchanged when there is none |
| Damage.RunLastRemaining | dmgReportHelpers.js:54-59 | the remaining resonators come from the last remaining sentence: its leading integer, or 0 for "No remaining Resonators" |
| Damage.ParseDamage | dmgReportHelpers.js:35-79 | a successful result never has all three counts zero; it fails with "no damage detected" exactly when the walk succeeds with all counts zero; its counts, remaining resonators and attacker are those of the walk |
| Damage.ParseDamageLastWins | dmgReportHelpers.js:35-79 | in a successful result, each count comes from the last sentence of its kind (0 if none); some destruction sentence exists and the attacker is the label after the last one; the remaining resonators come from the last remaining sentence (undefined if none) |
| Damage.ParseDamageFails | dmgReportHelpers.js:66-68 | parseDamage fails exactly when a destruction sentence lacks its agent label or every count is zero |
| MapIcon.LineEnd | dmgReportHelpers.js:99 | the line from a position ends at the first line terminator, and `.` matches everything before it |
| MapIcon.LastPng | dmgReportHelpers.js:99 | the last ".png" in a range is found, and none lies after it |
| MapIcon.GreedyEnd | dmgReportHelpers.js:99 | from a marker, the greedy capture `(.+)` ends at the last ".png" of the line; that is a match, no match ends later, and no match exists when it finds none |
| MapIcon.FindIcon | dmgReportHelpers.js:99 | the match found is the leftmost one, with the greedy end; none is found only when the pattern matches nowhere |
| MapIcon.IconResonators | dmgReportHelpers.js:102 | the resonator count is the second token's parseInt, or 0 when it is missing or NaN |
| MapIcon.IconResonatorsOf | dmgReportHelpers.js:102 | an icon `<token>_<N><rest>`, where the rest starts with neither a digit nor `x`, has N resonators |
| MapIcon.IconResonatorsNoDigit | dmgReportHelpers.js:102 | an icon whose second token has no decimal digit has 0 resonators |
| MapIcon.MarkerIcon | dmgReportHelpers.js:99 | a capture exists exactly when the pattern matches somewhere; the captured name is that of a match, non-empty and on one line |
| MapIcon.TokenTeam | dmgReportHelpers.js:101 | a token names a team exactly when it is one of the three team tokens, and then that team's token is the input |
| MapIcon.ParseMap | dmgReportHelpers.js:98-110 | an unmatched URL fails; otherwise the icon's first `_` token decides: it fails exactly when the token is not in the three-entry table, and on success the team's token is that first token and the count is IconResonators |
| MapIcon.MarkerIconOf | dmgReportHelpers.js:99 | a URL that holds one marker icon captures exactly that icon's name, whatever surrounds it |
| MapIcon.MarkerIconBare | dmgReportHelpers.js:99 | a bare marker icon path captures its name |
| MapIcon.PngDoesNotOverlap | dmgReportHelpers.js:99 | two occurrences of ".png" never overlap |
| MapIcon.PngInSuffix | dmgReportHelpers.js:99 | a ".png" lying wholly in the second part of a concatenation is one of that part |
| MapIcon.ParseMapTeams | dmgReportHelpers.js:101-102 | an icon starting with a team's token decodes to that team, with the count of its second token |
| MapIcon.ParseMapIcon | dmgReportHelpers.js:98-110 | an icon `<team token>_<N><rest>` decodes to that team with N resonators |
| MapIcon.ParseMapIconNoCount | dmgReportHelpers.js:98-110 | an icon `<team token>_<rest>` with no digit in its second token decodes to that team with 0 resonators |
| Scenarios.ParseMapResistanceExample | tests/helpers.mjs:54-57 | the icon "hum_4res" gives the resistance with 4 resonators |
| Scenarios.ParseMapEnlightenedExample | tests/helpers.mjs:58-61 | the icon "enl_4res" gives the enlightened with 4 resonators |
| Scenarios.ParseMapNeutralExample | tests/helpers.mjs:62-65 | the icon "neutral_icon" gives a neutral portal with 0 resonators |
| MapIcon.InheritedNamesNotTeams | dmgReportHelpers.js:101 | no name an object inherits is one of the three team tokens |
| MapIcon.TableLookupAsWritten | dmgReportHelpers.js:101 | the object-literal lookup returns the own team for the three tokens, and fails only for tokens that are neither own nor inherited |
| MapIcon.ParseMapAsWritten | dmgReportHelpers.js:98-105 | as written, an icon is accepted exactly when its first token is a team token or an inherited property name |
| MapIcon.InheritedTokenAccepted | dmgReportHelpers.js:101-105 | an icon such as "constructor_4res" is accepted as written, with an inherited value as its team, while the three-entry table rejects it |
| MapIcon.ParseMapAgreesOffInherited | dmgReportHelpers.js:101-105 | away from inherited names, the code as written and the three-entry table accept the same icons with the same team and count |
| Portals.ValuesOf | dmgReportHelpers.js:116 | the values given to a key are empty exactly when no pair names it |
| Portals.QueryParam | dmgReportHelpers.js:116 | `pll` reads exactly when it is given once, and then as its one value; absent or repeated, it cannot be split and the parse fails |
| Portals.ValuesOfSingle | dmgReportHelpers.js:116 | a key given once among pairs that do not name it has that one value |
| Portals.QueryParamOf | dmgReportHelpers.js:116 | a query string built from `&`-free pairs with the key given once reads back that value |
| Portals.ParseLocation | dmgReportHelpers.js:113-116 | the link row reads exactly when it has a link whose href gives `pll` once; the address is the trimmed link text; the coordinates are the first two comma parts, the second undefined when there is none |
| Portals.ParseLocationOf | dmgReportHelpers.js:113-116 | a `pll` of two comma-free coordinates reads back as those two coordinates |
| Portals.ParsePicture | dmgReportHelpers.js:118-123 | the image row reads exactly when both images exist, the map image has a source and parseMap accepts it; the name is the alt text after its first nine characters; a parseMap error is passed on unchanged |
| Portals.ParsePortal | dmgReportHelpers.js:112-134 | the portal reads exactly when both rows do; link-row errors come first; every field comes from its row, and level, health and owner are left unset |
| Portals.PortalNameOf | dmgReportHelpers.js:118-120 | a portal image whose alt text is "Portal - " followed by a name gives that name |
| JsText.Drop | dmgReportHelpers.js:120 | `substr(9)` is the text after its first nine characters, or empty |
| JsText.Trim | dmgReportHelpers.js:114 | `trim()` returns a contiguous part of the text with only white space before and after it, and no white space at either of its own ends |
| JsText.TrimBothEnds | dmgReportHelpers.js:114 | stripping the leading, then the trailing white space cuts the text into white space, the result and white space |
| JsText.TrimPadded | dmgReportHelpers.js:114 | trimming removes exactly the white-space padding around a word |
| JsText.Split | dmgReportHelpers.js:100 | `split` yields at least one part, and no part holds the separator |
| JsText.JoinSplit | dmgReportHelpers.js:100 | joining the parts of a split gives the text back |
| JsText.SplitJoin | dmgReportHelpers.js:116 | splitting a join of separator-free parts gives the parts back |
| JsText.SplitHead | dmgReportHelpers.js:100 | the first part of a split is the text before the first separator |
| JsText.ParseInt | dmgReportHelpers.js:29-30 | text starting with a decimal digit, not followed by `x`, reads as a non-negative integer; a negative result needs a minus sign in the text |
| JsText.ParseIntDigits | dmgReportHelpers.js:29-30 | parseInt of a run of decimal digits is their value |
| JsText.ParseIntShow | dmgReportHelpers.js:43 | parseInt reads back a rendered number, whatever non-digit text follows it |
| JsText.ParseIntNoDigit | dmgReportHelpers.js:102 | parseInt of text with no decimal digit is NaN |
| Report.PortalKey | parseMail.js:10-12 | no contract of its own; what the key determines is `Report.PortalKeySplit` and `Report.PortalKeyInjective` |
| Report.PortalKeySplit | parseMail.js:10-12 | a key of comma-free coordinates splits back into the two coordinates |
| Report.PortalKeyInjective | parseMail.js:10-12 | for comma-free coordinates, two keys coincide exactly when both rendered coordinate texts coincide |
| Report.ParsePortalCommaFree | dmgReportHelpers.js:116 | every parsed portal has comma-free coordinates, so its key determines them |
| Report.PortalKeyNotInherited | parseMail.js:34 | no portal key is an inherited property name, so `key in portalsMap` only sees own entries |
| Report.MergeAgent | parseMail.js:38-39 | merging a sighting keeps its name and team, and its level when it has one, else the recorded level |
| Report.AddAgent | parseMail.js:37-40 | the agent is filed under its name: name and team replaced, level replaced only when supplied; every other entry is unchanged |
| Report.AddAgentNamed | parseMail.js:37-40 | adding an agent keeps every agent filed under its own name |
| Report.AddAgentIdempotent | parseMail.js:37-40 | adding the same agent twice is adding it once |
| Report.AddAgentKeepsLevel | parseMail.js:37-40 | a later sighting without a level keeps the subject's level |
| Report.AddAgentAsWritten | parseMail.js:37-40 | as written: off inherited names, it is AddAgent; "__proto__" records nothing; any other new inherited name throws |
| Report.InheritedAgentRejected | parseMail.js:37-40 | an agent named "constructor" aborts the parse as written, while the own-key registry files it |
| Report.ProtoAgentDropped | parseMail.js:37-40 | an agent named "__proto__" is dropped as written, while the own-key registry files it |
| Report.MergePortal | parseMail.js:34 | merging a sighting takes every parsed field from it, including an undefined resonator count; level, health and owner come from it when set, else from the record |
| Report.AddPortal | parseMail.js:34 | the portal is filed under its key: the parsed fields are replaced; level, health and owner are replaced only when supplied; every other entry is unchanged |
| Report.AddPortalKeyed | parseMail.js:34 | adding a portal keeps every portal filed under its own key |
| Report.AddPortalIdempotent | parseMail.js:34 | adding the same portal twice is adding it once |
| Report.AddPortalKeepsStatus | parseMail.js:23-35 | a status given once survives a later sighting without one, while the parsed fields follow the later sighting |
| Report.Claim | parseMail.js:25-33 | the first portal takes the damage's remaining resonators and the status's level, health and owner name; it fails exactly when the status has no owner; its key is unchanged |
| Report.AddClaimed | parseMail.js:23-35 | the owner is registered and the completed portal filed; it fails exactly when the status has no owner |
| Report.ParsedPortals | parseMail.js:50-51 | a group of n rows yields ⌊(n + 1) / 3⌋ portals when n > 1 |
| Report.ParsedPortalsAt | parseMail.js:50-51 | the m-th portal is read from rows 3m and 3m + 1, both inside the group |
| Report.Sight | parseMail.js:50-58 | a loop iteration succeeds exactly when the portal parsed and, for the first portal, the status names an owner; it reports the portal's key |
| Report.SightFiles | parseMail.js:23-35 | the first portal's entry becomes the portal completed by the damage and status; a later portal is only merged into the portal registry and the agents are unchanged |
| Report.VisitPortals | parseMail.js:50-58 | a successful loop meets one key per portal |
| Report.VisitPortalsStep | parseMail.js:50-58 | a loop from portal j succeeds exactly when its sighting and the loop from j + 1 do, with that sighting's key first |
| Report.VisitPortalsKeys | parseMail.js:50-58 | the loop meets every portal, in row order, under the key of its coordinates |
| Report.VisitPortalsSucceeds | parseMail.js:50-58 | the loop succeeds exactly when every portal parses and, when there is a first portal, the status names an owner |
| Report.VisitPortalsGrows | parseMail.js:50-58 | the loop only lets the registries grow, and every key it meets is filed |
| Report.VisitPortalsSound | parseMail.js:50-58 | the loop keeps every entry filed under its name or key, and every owner registered |
| Report.SightSound | parseMail.js:28-34 | one iteration keeps the registries sound: the first portal's owner is registered with it |
| Report.SightGrows | parseMail.js:34 | one iteration only lets the registries grow, and files the portal under its key |
| Report.ParsedPortalsUnclaimed | dmgReportHelpers.js:125-133 | a freshly parsed portal has no level, health or owner |
| Report.AddAgentSound | parseMail.js:37-40 | registering an agent keeps the registries sound |
| Report.AddPortalSound | parseMail.js:34 | filing a portal whose owner is registered keeps the registries sound |
| Report.Conclude | parseMail.js:60-73 | the record is built exactly when the destroyed links number one less than the portals met, and at least one portal was met; otherwise the link mismatch is an error; the record holds the first key, the other keys, and the attacker and counts of the damage; the attacker is registered |
| Report.ConcludeReports | parseMail.js:62-73 | a concluded record reports the damage over the portals it met |
| Report.ProcessGroup | parseMail.js:46-74 | an empty group fails |
| Report.ProcessGroupSteps | parseMail.js:47-73 | a successful group had a damage row, a damage text and a status that parse, a portal loop that succeeded, and a conclusion that succeeded |
| Report.ProcessGroupDescribes | parseMail.js:46-74 | a group's record reports its last row's damage over the portals of rows 0 and 1, 3 and 4, ...: first key, link keys, destroyed links equal to the other portals |
| Report.VisitPortalsKeepsClaim | parseMail.js:50-58 | later portals of a group keep the level, health and owner of an entry already filed, and leave the entry alone unless one of them has its key |
| Report.ProcessGroupClaims | parseMail.js:23-35 | after a group, its attacked portal's entry holds the status's level, health and owner name; it holds the damage's remaining resonators unless a linked portal has the same key |
| Report.ProcessGroupSound | parseMail.js:46-74 | processing a group keeps the registries sound |
| Report.ProcessGroupGrows | parseMail.js:46-74 | processing a group only lets the registries grow, and registers the attacker and every portal its record names |
| Report.RegisteredGrows | parseMail.js:65-73 | a registered record stays registered as the registries grow |
| Report.ProcessGroupSoundStep | parseMail.js:46-74 | the group step is a sound step |
| Report.ProcessGroups | parseMail.js:46-74 | the groups are processed in order: one record appended per group, earlier records kept |
| Report.ProcessGroupsSound | parseMail.js:46-74 | over all groups, a sound step keeps the registries sound and every record registered |
| Report.ProcessGroupsHold | parseMail.js:46-74 | over all groups, record j bears to group j whatever every step's record bears to its group |
| Report.ProcessGroupDescribesAll | parseMail.js:46-74 | every successful group step describes its group |
| Report.ParseReport | parseMail.js:14-83 | a bad subject banner fails the parse; a successful parse names the subject agent and holds one record per group |
| Report.ParseReportSound | parseMail.js:14-83 | in a parsed report, the subject is a registered agent; agents and portals are filed under their names and keys; owners are registered; every record's attacker, portal and links are registered |
| Report.ParseReportDescribes | parseMail.js:44-82 | record j of the report describes group j of getDmgRows, for every j |

## Left out

- Reading the mail (`readMail`, `simpleParser`), building the tree (`JSDOM`) and the CSS selectors. These are external collaborators. The model starts from a `Row` whose fields are the selector results, and from nodes whose colour is already normalised.
- Line-ending normalisation of the mail body. It happens before the tree exists.
- `timestamp` and the subject's `email` (`parseMail.js:18-19`). They come from message metadata and are returned unchanged, so the report omits them.
- The `async` boundary. The parse itself is synchronous.
- `Number.parseFloat` of the coordinates and float-to-string conversion in `portalKey`. Coordinates are kept as the text of the `pll` parts and the key is the text join. Two spellings of one number ("42" and "42.0") therefore key differently here, but alike in the source.
- `querystring` percent-decoding, `+`-to-space decoding and its key limit. `pll` is read from the raw `&`-separated pairs.
- `wholeText` is taken as the text of the single text node. Adjacent text nodes are not merged.
- Strings are sequences of Unicode scalar values, not UTF-16 code units. `trim` and `substr` counts differ only outside the Basic Multilingual Plane.
- Number precision. `parseInt` results are unbounded integers, with no rounding of very long digit runs.
- Object identity and aliasing. The source merges into the object it later returns, and the model merges values. The record's keys are computed after the loop, from the merged entries (`parseMail.js:66,70-72`). An entry is only ever merged with a sighting whose coordinates give the same key, and a merge replaces the coordinates with that sighting's. So the merged entry keys the same as the sighting, and the records are unaffected.
- Prototype pollution by an agent named "__proto__". `Report.AddAgentAsWritten` models that the agent is dropped, not that its fields land on `Object.prototype`.
- The unit-test examples of `parseDamage`, `parseMap` and `parsePortal` (`tests/helpers.mjs:30-91`). The `parseMap` examples are concrete lemmas (`Scenarios.ParseMapResistanceExample`, `Scenarios.ParseMapEnlightenedExample`, `Scenarios.ParseMapNeutralExample`), stated from the captured icon on. That the example URLs capture those icons is `MapIcon.MarkerIconOf`. The `parseDamage` and `parsePortal` examples are not concrete lemmas. They are covered generically by `Damage.ParseDamageLastWins` and by `Portals.ParseLocationOf` with `Portals.PortalNameOf`.
- Report.ProcessGroup: its own contract only states that an empty group fails. What a successful group yields is stated by `Report.ProcessGroupSteps`, `Report.ProcessGroupDescribes`, `Report.ProcessGroupSound` and `Report.ProcessGroupGrows`.
- Report.VisitPortals: its own contract only states the number of keys. Their values, success and registry effects are in `Report.VisitPortalsKeys`, `Report.VisitPortalsSucceeds`, `Report.VisitPortalsGrows` and `Report.VisitPortalsSound`.
- Report.ProcessGroups: its own contract only states record count and prefix. Soundness and per-group descriptions are in `Report.ProcessGroupsSound` and `Report.ProcessGroupsHold`.
- Report.ParseReport: its own contract states the subject and the record count. The registries and records are described by `Report.ParseReportSound` and `Report.ParseReportDescribes`.
- Report.ParseReport: its theorems are about the own-key lookups, `MapIcon.ParseMap` and `Report.AddAgent`. The lookups as written, `MapIcon.ParseMapAsWritten` and `Report.AddAgentAsWritten`, are not threaded through the report. They differ only for tokens and names that an object inherits (see "Findings").
- Report.PortalKey: a `pll` with a single part gives longitude `Undefined`, which renders "undefined". A second part that reads "undefined" renders the same way. So `pll` "1" and "1,undefined" both key as "1,undefined" here. In the source, `parseFloat` turns the second into `NaN`, keying "1,NaN". `Report.PortalKeyInjective` is stated over rendered texts for this reason.
- Report.PortalKey: has no contract of its own. Its properties are lemmas (`Report.PortalKeySplit`, `Report.PortalKeyInjective`, `Report.PortalKeyNotInherited`).
- Damage.Classify: has no contract of its own. Its verdict on each sentence the mail writes is stated by `Damage.LinksSentence`, `Damage.ModSentence`, `Damage.ModsSentence`, `Damage.ResonatorSentence`, `Damage.ResonatorsSentence`, `Damage.RemainingSentence` and `Damage.NoneRemainingSentence`.
- Report.Sight: its own contract states success and the key. What it files is `Report.SightFiles`.
- Dom.TextContent: its own contract states the text-node case and the first child's prefix. Document order is `Damage.TextContentIsSiteText`.
- JsText.ParseInt: its own contract states sign facts only. Its values are `JsText.ParseIntDigits`, `JsText.ParseIntShow` and `JsText.ParseIntNoDigit`. Hexadecimal values are not stated by any lemma.
- MapIcon.IconResonators: the count as a function of the icon text is `MapIcon.IconResonatorsOf` and `MapIcon.IconResonatorsNoDigit`.
- Status.MatchNumber: reads the captured digits with their decimal value. That this is what `parseInt` returns is `Status.MatchNumberParseInt`.

## Findings

| source | as written | input that shows it | evidently intended | confidence | as-written member | corrected member |
|---|---|---|---|---|---|---|
| dmgReportHelpers.js:101-105 | the team table is an object literal, so indexing it with a token finds properties every object inherits, and the truthy inherited value passes the `!team` check | a map URL whose marker icon is `constructor_4res.png` yields team `Object` (a function) and 4 resonators instead of an error | only the three tokens are teams; any other token is an unknown-team error | not executed; the lookup semantics are certain, and real icons are unlikely to use such names | MapIcon.ParseMapAsWritten, MapIcon.InheritedTokenAccepted | MapIcon.ParseMap, MapIcon.ParseMapAgreesOffInherited |
| parseMail.js:37-40 | `key in agentsMap` on a plain object also sees inherited names. For "constructor" and the other built-in method names, `Object.assign` onto the inherited function throws, because its `name` is read-only. For "__proto__", the merge lands on `Object.prototype` and nothing is recorded | an attacker or owner label with the text `constructor` aborts the whole parse; one with the text `__proto__` is missing from `agents` | every agent is filed under its own name, whatever that name is | not executed; follows from `Object.assign` and `in` semantics | Report.AddAgentAsWritten, Report.InheritedAgentRejected, Report.ProtoAgentDropped | Report.AddAgent, Report.AddAgentNamed |
