/** Rows: cutting the report table's rows into one group per damaged portal.
    The first two rows (the agent name and the "DAMAGE REPORT" banner) are
    skipped; a row whose first child has no children is a separator. */
module Rows {
  import opened Dom

  /** A separator row: its first cell exists and is empty. */
  predicate IsSeparator(row: Row) {
    |Children(row.node)| > 0 && |Children(Children(row.node)[0])| == 0
  }

  predicate NoSeparator(g: seq<Row>) {
    forall k :: 0 <= k < |g| ==> !IsSeparator(g[k])
  }

  /** The rows after the two header rows. */
  function Body(trs: seq<Row>): (body: seq<Row>)
    ensures |trs| <= 2 ==> body == []
    ensures |trs| > 2 ==> trs == trs[..2] + body
  {
    if |trs| <= 2 then [] else trs[2..]
  }

  /** The separator rows of `s`, in order. */
  function Seps(s: seq<Row>): (seps: seq<Row>)
    ensures |seps| <= |s|
    ensures forall k :: 0 <= k < |seps| ==> IsSeparator(seps[k])
  {
    if |s| == 0 then []
    else (if IsSeparator(s[0]) then [s[0]] else []) + Seps(s[1..])
  }

  /** The partner of cutting: groups glued back together with the
      separators between them. */
  function Interleave(groups: seq<seq<Row>>, seps: seq<Row>): seq<Row>
    requires |groups| == |seps| + 1
    decreases |seps|
  {
    if |seps| == 0 then groups[0]
    else groups[0] + [seps[0]] + Interleave(groups[1..], seps[1..])
  }

  /** Gluing a first group and separator in front of the others. */
  lemma InterleaveCons(g: seq<Row>, sep: Row, groups: seq<seq<Row>>, seps: seq<Row>)
    requires |groups| == |seps| + 1
    ensures Interleave([g] + groups, [sep] + seps) == g + [sep] + Interleave(groups, seps)
  {
    assert ([g] + groups)[1..] == groups;
    assert ([sep] + seps)[1..] == seps;
  }

  /** The rows from `start` are those before row `i`, row `i`, and those after. */
  lemma SliceAround(body: seq<Row>, start: nat, i: nat)
    requires start <= i < |body|
    ensures body[start..] == body[start..i] + [body[i]] + body[i + 1..]
  {
  }

  /** The scan of `getDmgRows` from position `i`, the current group having
      started at `start`: a separator closes the group, the end of the rows
      closes the last one. */
  function Cut(body: seq<Row>, start: nat, i: nat): seq<seq<Row>>
    requires start <= i <= |body|
    decreases |body| - i
  {
    if i == |body| then [body[start..]]
    else if IsSeparator(body[i]) then [body[start..i]] + Cut(body, i + 1, i + 1)
    else Cut(body, start, i + 1)
  }

  /** `getDmgRows`: one group per separator-delimited run of rows; there is
      always at least one group, possibly empty. */
  function GetDmgRows(trs: seq<Row>): (groups: seq<seq<Row>>)
    ensures |groups| == |Seps(Body(trs))| + 1
    ensures forall m :: 0 <= m < |groups| ==> NoSeparator(groups[m])
    ensures Interleave(groups, Seps(Body(trs))) == Body(trs)
  {
    CutClean(Body(trs), 0, 0);
    CutGlue(Body(trs), 0, 0);
    Cut(Body(trs), 0, 0)
  }

  /** The scan yields one group more than the separators still ahead. */
  lemma {:induction false} CutCount(body: seq<Row>, start: nat, i: nat)
    requires start <= i <= |body|
    ensures |Cut(body, start, i)| == |Seps(body[i..])| + 1
    decreases |body| - i
  {
    if i < |body| {
      assert body[i..][1..] == body[i + 1..];
      CutCount(body, if IsSeparator(body[i]) then i + 1 else start, i + 1);
    }
  }

  /** From a separator-free current group, every group is separator-free. */
  lemma {:induction false} CutClean(body: seq<Row>, start: nat, i: nat)
    requires start <= i <= |body|
    requires NoSeparator(body[start..i])
    ensures forall m :: 0 <= m < |Cut(body, start, i)| ==> NoSeparator(Cut(body, start, i)[m])
    decreases |body| - i
  {
    if i == |body| {
      assert body[start..i] == body[start..];
    } else if IsSeparator(body[i]) {
      assert body[i + 1..i + 1] == [];
      CutClean(body, i + 1, i + 1);
      var rest := Cut(body, i + 1, i + 1);
      var groups := [body[start..i]] + rest;
      forall m | 0 <= m < |groups| ensures NoSeparator(groups[m]) {
        if m > 0 {
          assert groups[m] == rest[m - 1];
        }
      }
    } else {
      assert body[start..i + 1] == body[start..i] + [body[i]];
      CutClean(body, start, i + 1);
    }
  }

  /** The groups glue back, with the separators ahead, into the rows from
      `start`. */
  lemma {:induction false} CutGlue(body: seq<Row>, start: nat, i: nat)
    requires start <= i <= |body|
    ensures |Cut(body, start, i)| == |Seps(body[i..])| + 1
    ensures Interleave(Cut(body, start, i), Seps(body[i..])) == body[start..]
    decreases |body| - i
  {
    CutCount(body, start, i);
    if i == |body| {
      assert body[start..i] == body[start..];
      assert Seps(body[i..]) == [];
    } else if IsSeparator(body[i]) {
      CutGlue(body, i + 1, i + 1);
      GlueAtSeparator(body, start, i);
    } else {
      CutGlue(body, start, i + 1);
      GlueAtRow(body, start, i);
    }
  }

  /** A row that is not a separator joins the current group. */
  lemma GlueAtRow(body: seq<Row>, start: nat, i: nat)
    requires start <= i < |body| && !IsSeparator(body[i])
    ensures Cut(body, start, i) == Cut(body, start, i + 1)
    ensures Seps(body[i..]) == Seps(body[i + 1..])
  {
    assert body[i..][1..] == body[i + 1..];
  }

  /** At a separator, the group before it, the separator and the glued
      groups after it make up the rows from `start`. */
  lemma GlueAtSeparator(body: seq<Row>, start: nat, i: nat)
    requires start <= i < |body| && IsSeparator(body[i])
    requires |Cut(body, i + 1, i + 1)| == |Seps(body[i + 1..])| + 1
    requires Interleave(Cut(body, i + 1, i + 1), Seps(body[i + 1..])) == body[i + 1..]
    ensures Interleave(Cut(body, start, i), Seps(body[i..])) == body[start..]
  {
    assert body[i..][1..] == body[i + 1..];
    assert body[i..][0] == body[i];
    var rest := Cut(body, i + 1, i + 1);
    assert Cut(body, start, i) == [body[start..i]] + rest;
    assert Seps(body[i..]) == [body[i]] + Seps(body[i + 1..]);
    InterleaveCons(body[start..i], body[i], rest, Seps(body[i + 1..]));
    SliceAround(body, start, i);
  }

  /** Any split of the body into separator-free groups and separators
      that glues back into it is the one `getDmgRows` finds. */
  lemma GetDmgRowsUnique(trs: seq<Row>, groups: seq<seq<Row>>, seps: seq<Row>)
    requires |groups| == |seps| + 1
    requires forall m :: 0 <= m < |groups| ==> NoSeparator(groups[m])
    requires forall k :: 0 <= k < |seps| ==> IsSeparator(seps[k])
    requires Interleave(groups, seps) == Body(trs)
    ensures GetDmgRows(trs) == groups
  {
    CutOf(Body(trs), 0, groups, seps);
  }

  lemma {:induction false} CutOf(body: seq<Row>, start: nat, groups: seq<seq<Row>>, seps: seq<Row>)
    requires start <= |body|
    requires |groups| == |seps| + 1
    requires forall m :: 0 <= m < |groups| ==> NoSeparator(groups[m])
    requires forall k :: 0 <= k < |seps| ==> IsSeparator(seps[k])
    requires body[start..] == Interleave(groups, seps)
    ensures Cut(body, start, start) == groups
    decreases |seps|
  {
    var g := groups[0];
    var e := start + |g|;
    assert body[start..][..|g|] == g;
    assert body[start..e] == g;
    CutWalk(body, start, start, e);
    if |seps| == 0 {
      assert e == |body|;
    } else {
      var rest := Interleave(groups[1..], seps[1..]);
      assert body[start..] == g + [seps[0]] + rest;
      assert body[e] == seps[0];
      assert body[e + 1..] == rest;
      forall m | 0 <= m < |groups[1..]| ensures NoSeparator(groups[1..][m]) {
        assert groups[1..][m] == groups[m + 1];
      }
      CutOf(body, e + 1, groups[1..], seps[1..]);
      assert groups == [g] + groups[1..];
    }
  }

  /** The scan passes over a separator-free stretch without cutting. */
  lemma {:induction false} CutWalk(body: seq<Row>, start: nat, i: nat, j: nat)
    requires start <= i <= j <= |body|
    requires NoSeparator(body[i..j])
    ensures Cut(body, start, i) == Cut(body, start, j)
    decreases j - i
  {
    if i < j {
      assert body[i..j][0] == body[i];
      assert body[i + 1..j] == body[i..j][1..];
      CutWalk(body, start, i + 1, j);
    }
  }
}
