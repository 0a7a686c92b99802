/** The association quarantine: a log with one row per dedupe key, counting how often it was seen
    and collecting every reason once. */
module Quarantine {
  import opened Text
  import opened Sequences

  datatype Edge = Edge(source: string, target: string, relationshipRaw: string, relationship: string,
                       reasonText: string, provenance: string)

  datatype Write = Write(edge: Edge, reasons: seq<string>, warnings: seq<string>, session: string, now: int)

  datatype Row = Row(key: string, createdAt: int, lastSeenAt: int, seen: nat, session: string,
                     reasons: seq<string>, warnings: seq<string>, edge: Edge)

  /** The text the dedupe key hashes. */
  function Packed(e: Edge): string {
    Strip(e.source) + ("||" + (Strip(e.target) + ("||" + (Norm(Or(e.relationshipRaw, e.relationship))
    + ("||" + (Strip(e.reasonText) + ("||" + Norm(e.provenance))))))))
  }

  predicate Given(s: string) { s != "" }

  function AppendUnique(items: seq<string>, value: string): seq<string> {
    if value != "" && value !in items then items + [value] else items
  }

  function AppendAll(items: seq<string>, values: seq<string>): seq<string> {
    if values == [] then items
    else AppendUnique(AppendAll(items, values[..|values| - 1]), values[|values| - 1])
  }

  /** The first row with the key, or |rows|. */
  function Find(rows: seq<Row>, key: string): (i: nat)
    ensures i <= |rows|
    ensures i < |rows| ==> rows[i].key == key
    ensures forall j :: 0 <= j < i ==> rows[j].key != key
  {
    if rows == [] || rows[0].key == key then 0 else 1 + Find(rows[1..], key)
  }

  function Fresh(key: string, w: Write): Row {
    Row(key, w.now, w.now, 1, w.session, Dedup(Filter(w.reasons, Given)), Dedup(Filter(w.warnings, Given)), w.edge)
  }

  function Seen(r: Row, w: Write): Row {
    r.(seen := r.seen + 1, lastSeenAt := w.now,
       reasons := AppendAll(r.reasons, w.reasons), warnings := AppendAll(r.warnings, w.warnings))
  }

  function Written(rows: seq<Row>, key: string, w: Write): seq<Row> {
    var i := Find(rows, key);
    if i < |rows| then rows[i := Seen(rows[i], w)] else rows + [Fresh(key, w)]
  }

  function KeyOf(hash: string -> string, w: Write): string {
    hash(Packed(w.edge))
  }

  /** The log after the writes. */
  function Log(hash: string -> string, ws: seq<Write>): seq<Row> {
    if ws == [] then []
    else Written(Log(hash, ws[..|ws| - 1]), KeyOf(hash, ws[|ws| - 1]), ws[|ws| - 1])
  }

  // ---------------------------------------------------------------- the reference

  function HasKey(hash: string -> string, key: string): Write -> bool {
    (w: Write) => KeyOf(hash, w) == key
  }

  function Reasons(ws: seq<Write>): seq<string> {
    if ws == [] then [] else Reasons(ws[..|ws| - 1]) + ws[|ws| - 1].reasons
  }

  function Warnings(ws: seq<Write>): seq<string> {
    if ws == [] then [] else Warnings(ws[..|ws| - 1]) + ws[|ws| - 1].warnings
  }

  /** What the row of a key must be, from all of its writes at once. */
  ghost predicate Summarises(r: Row, mine: seq<Write>) {
    && mine != []
    && r.seen == |mine|
    && r.createdAt == mine[0].now && r.lastSeenAt == mine[|mine| - 1].now
    && r.session == mine[0].session && r.edge == mine[0].edge
    && r.reasons == Dedup(Filter(Reasons(mine), Given))
    && r.warnings == Dedup(Filter(Warnings(mine), Given))
  }

  lemma {:induction false} AppendAllIsDedup(xs: seq<string>, values: seq<string>)
    ensures AppendAll(Dedup(Filter(xs, Given)), values) == Dedup(Filter(xs + values, Given))
  {
    hide Filter, Dedup;
    if values == [] {
      assert xs + values == xs;
    } else {
      var init, last := values[..|values| - 1], values[|values| - 1];
      AppendAllIsDedup(xs, init);
      DedupFilterSnoc(xs + init, last, Given);
      assert xs + values == (xs + init) + [last];
    }
  }

  lemma SeenSummarises(r: Row, mine: seq<Write>, w: Write)
    requires Summarises(r, mine)
    ensures Summarises(Seen(r, w), mine + [w])
  {
    hide Filter, Dedup;
    assert (mine + [w])[..|mine|] == mine;
    AppendAllIsDedup(Reasons(mine), w.reasons);
    AppendAllIsDedup(Warnings(mine), w.warnings);
  }

  lemma FreshSummarises(key: string, w: Write)
    ensures Summarises(Fresh(key, w), [w])
  {
    hide Filter, Dedup;
    assert [w][..0] == [];
    assert Reasons([w]) == w.reasons && Warnings([w]) == w.warnings;
  }

  ghost predicate UniqueKeys(rows: seq<Row>) {
    forall i, j :: 0 <= i < j < |rows| ==> rows[i].key != rows[j].key
  }

  ghost predicate Faithful(hash: string -> string, rows: seq<Row>, ws: seq<Write>) {
    && UniqueKeys(rows)
    && (forall r <- rows :: Summarises(r, Filter(ws, HasKey(hash, r.key))))
    && (forall w <- ws :: exists r <- rows :: r.key == KeyOf(hash, w))
  }

  lemma RowStaysSummary(hash: string -> string, rows: seq<Row>, ws: seq<Write>, w: Write, j: nat)
    requires Faithful(hash, rows, ws) && j < |Written(rows, KeyOf(hash, w), w)|
    ensures var r := Written(rows, KeyOf(hash, w), w)[j];
      Summarises(r, Filter(ws + [w], HasKey(hash, r.key)))
  {
    hide Summarises, Seen, Fresh, KeyOf, Filter;
    var key := KeyOf(hash, w);
    SeenKeepsKey(w);
    FreshKey(key, w);
    FilterSnoc(ws, w, HasKey(hash, if j < |rows| then rows[j].key else key));
    if j < |rows| {
      assert rows[j] in rows;
      if j == Find(rows, key) { SeenSummarises(rows[j], Filter(ws, HasKey(hash, key)), w); }
    } else {
      NoEarlierWrites(hash, rows, ws, key);
      FreshSummarises(key, w);
      assert [] + [w] == [w];
    }
  }

  /** One more write keeps every row a summary of all writes with its key. */
  lemma WriteKeepsFaithful(hash: string -> string, rows: seq<Row>, ws: seq<Write>, w: Write)
    requires Faithful(hash, rows, ws)
    ensures Faithful(hash, Written(rows, KeyOf(hash, w), w), ws + [w])
  {
    hide Summarises, Seen, Fresh, KeyOf;
    var key := KeyOf(hash, w);
    var i := Find(rows, key);
    var rows' := Written(rows, key, w);
    SeenKeepsKey(w);
    FreshKey(key, w);
    forall j | 0 <= j < |rows'|
      ensures Summarises(rows'[j], Filter(ws + [w], HasKey(hash, rows'[j].key)))
    {
      RowStaysSummary(hash, rows, ws, w, j);
    }
    forall v | v in ws + [w]
      ensures exists r <- rows' :: r.key == KeyOf(hash, v)
    {
      if v in ws {
        var r :| r in rows && r.key == KeyOf(hash, v);
        var j :| 0 <= j < |rows| && rows[j] == r;
        assert rows'[j] in rows' && rows'[j].key == r.key;
      } else {
        assert rows'[i] in rows' && rows'[i].key == key;
      }
    }
  }

  lemma SeenKeepsKey(w: Write)
    ensures forall r :: Seen(r, w).key == r.key
  {
  }

  lemma FreshKey(key: string, w: Write)
    ensures Fresh(key, w).key == key
  {
  }

  lemma NoEarlierWrites(hash: string -> string, rows: seq<Row>, ws: seq<Write>, key: string)
    requires Faithful(hash, rows, ws) && forall r <- rows :: r.key != key
    ensures Filter(ws, HasKey(hash, key)) == []
  {
    hide Summarises, KeyOf;
    FilterNone(ws, HasKey(hash, key));
  }

  /** Over every sequence of writes: one row a key, and each row is exactly the summary of its
      key's writes, every non-empty reason kept once in order of first appearance. */
  lemma {:induction false} LogIsFaithful(hash: string -> string, ws: seq<Write>)
    ensures Faithful(hash, Log(hash, ws), ws)
  {
    hide Written, KeyOf, Summarises;
    if ws != [] {
      LogIsFaithful(hash, ws[..|ws| - 1]);
      WriteKeepsFaithful(hash, Log(hash, ws[..|ws| - 1]), ws[..|ws| - 1], ws[|ws| - 1]);
      assert ws == ws[..|ws| - 1] + [ws[|ws| - 1]];
    }
  }

  function TotalSeen(rows: seq<Row>): nat {
    if rows == [] then 0 else TotalSeen(rows[..|rows| - 1]) + rows[|rows| - 1].seen
  }

  lemma {:induction false} TotalAfterUpdate(rows: seq<Row>, i: nat, r: Row)
    requires i < |rows|
    ensures TotalSeen(rows[i := r]) == TotalSeen(rows) - rows[i].seen + r.seen
  {
    var init := rows[..|rows| - 1];
    if i == |init| {
      assert rows[i := r][..|init|] == init;
    } else {
      TotalAfterUpdate(init, i, r);
      assert rows[i := r][..|init|] == init[i := r];
    }
  }

  /** No write goes uncounted. */
  lemma {:induction false} EveryWriteCounted(hash: string -> string, ws: seq<Write>)
    ensures TotalSeen(Log(hash, ws)) == |ws|
  {
    hide KeyOf;
    if ws != [] {
      var w, rows := ws[|ws| - 1], Log(hash, ws[..|ws| - 1]);
      EveryWriteCounted(hash, ws[..|ws| - 1]);
      var i := Find(rows, KeyOf(hash, w));
      if i < |rows| {
        TotalAfterUpdate(rows, i, Seen(rows[i], w));
      } else {
        assert Log(hash, ws)[..|rows|] == rows;
      }
    }
  }

  // ---------------------------------------------------------------- the text the key hashes

  predicate PipeFree(s: string) { '|' !in s }

  lemma FieldIsDetermined(a: string, r: string, b: string, t: string)
    requires PipeFree(a) && PipeFree(b) && a + ("||" + r) == b + ("||" + t)
    ensures a == b && r == t
  {
    var s := a + ("||" + r);
    assert forall i :: 0 <= i < |a| ==> s[i] == a[i] && a[i] in a;
    assert forall i :: 0 <= i < |b| ==> s[i] == b[i] && b[i] in b;
    assert s[|a|] == '|' && s[|b|] == '|';
    assert |a| == |b|;
    assert a == s[..|a|] && b == s[..|b|];
    assert r == s[|a| + 2..] && t == s[|b| + 2..];
  }

  predicate PipeFreeFields(e: Edge) {
    && PipeFree(Strip(e.source)) && PipeFree(Strip(e.target))
    && PipeFree(Norm(Or(e.relationshipRaw, e.relationship))) && PipeFree(Strip(e.reasonText))
  }

  /** Edges without pipes pack alike only if they agree on everything the key is meant to compare. */
  lemma PackedIsInjective(d: Edge, e: Edge)
    requires PipeFreeFields(d) && PipeFreeFields(e) && Packed(d) == Packed(e)
    ensures Strip(d.source) == Strip(e.source) && Strip(d.target) == Strip(e.target)
    ensures Norm(Or(d.relationshipRaw, d.relationship)) == Norm(Or(e.relationshipRaw, e.relationship))
    ensures Strip(d.reasonText) == Strip(e.reasonText) && Norm(d.provenance) == Norm(e.provenance)
  {
    hide Strip, Norm, PipeFree;
    var d4, e4 := Norm(d.provenance), Norm(e.provenance);
    var d3, e3 := Strip(d.reasonText) + ("||" + d4), Strip(e.reasonText) + ("||" + e4);
    var d2 := Norm(Or(d.relationshipRaw, d.relationship)) + ("||" + d3);
    var e2 := Norm(Or(e.relationshipRaw, e.relationship)) + ("||" + e3);
    var d1, e1 := Strip(d.target) + ("||" + d2), Strip(e.target) + ("||" + e2);
    FieldIsDetermined(Strip(d.source), d1, Strip(e.source), e1);
    FieldIsDetermined(Strip(d.target), d2, Strip(e.target), e2);
    FieldIsDetermined(Norm(Or(d.relationshipRaw, d.relationship)), d3, Norm(Or(e.relationshipRaw, e.relationship)), e3);
    FieldIsDetermined(Strip(d.reasonText), d4, Strip(e.reasonText), e4);
  }

  predicate IsPipe(c: char) { c == '|' }

  function Pipes(s: string): nat { Count(s, IsPipe) }

  lemma PipesInField(s: string, rest: string)
    ensures Pipes(s + ("||" + rest)) == Pipes(s) + 2 + Pipes(rest)
  {
    CountConcat(s, "||" + rest, IsPipe);
    CountConcat("||", rest, IsPipe);
    assert "||"[1..] == "|" && "|"[1..] == "";
  }

  lemma {:induction false} NoPipesIff(s: string)
    ensures Pipes(s) == 0 <==> PipeFree(s)
  {
    if s != "" {
      NoPipesIff(s[1..]);
      assert s == [s[0]] + s[1..];
    }
  }

  /** The pipes of the packed text: eight between the fields, and those inside them. */
  function InnerPipes(e: Edge): nat {
    Pipes(Strip(e.source)) + Pipes(Strip(e.target)) + Pipes(Norm(Or(e.relationshipRaw, e.relationship)))
    + Pipes(Strip(e.reasonText)) + Pipes(Norm(e.provenance))
  }

  lemma PackedPipes(e: Edge)
    ensures Pipes(Packed(e)) == InnerPipes(e) + 8
  {
    hide Strip, Norm, Pipes;
    var e4 := Norm(e.provenance);
    var e3 := Strip(e.reasonText) + ("||" + e4);
    var e2 := Norm(Or(e.relationshipRaw, e.relationship)) + ("||" + e3);
    PipesInField(Strip(e.reasonText), e4);
    PipesInField(Norm(Or(e.relationshipRaw, e.relationship)), e3);
    PipesInField(Strip(e.target), e2);
    PipesInField(Strip(e.source), Strip(e.target) + ("||" + e2));
  }

  /** An edge without pipes shares its row with no edge, with or without pipes, that differs from it
      in anything the key is meant to compare. */
  lemma PipeFreeRowIsOwn(d: Edge, e: Edge)
    requires PipeFreeFields(d) && PipeFree(Norm(d.provenance)) && Packed(d) == Packed(e)
    ensures Strip(d.source) == Strip(e.source) && Strip(d.target) == Strip(e.target)
    ensures Norm(Or(d.relationshipRaw, d.relationship)) == Norm(Or(e.relationshipRaw, e.relationship))
    ensures Strip(d.reasonText) == Strip(e.reasonText) && Norm(d.provenance) == Norm(e.provenance)
  {
    hide Strip, Norm, PipeFree, Pipes, Packed;
    PackedPipes(d);
    PackedPipes(e);
    forall s { NoPipesIff(s); }
    PackedIsInjective(d, e);
  }

  /** With pipes, different edges share a row. */
  lemma PipesCollide()
    ensures Packed(Edge("a||b", "c", "r", "", "t", "p")) == Packed(Edge("a", "b||c", "r", "", "t", "p"))
  {
    assert Stripped("a||b") && Stripped("c") && Stripped("a") && Stripped("b||c");
    assert "a||b" + ("||" + "c") == "a" + ("||" + "b||c");
    var rest := "||" + (Norm("r") + ("||" + (Strip("t") + ("||" + Norm("p")))));
    assert "a||b" + ("||" + ("c" + rest)) == ("a||b" + ("||" + "c")) + rest;
    assert "a" + ("||" + ("b||c" + rest)) == ("a" + ("||" + "b||c")) + rest;
  }

  // ---------------------------------------------------------------- the log file

  class QuarantineLog {
    const hash: string -> string
    var rows: seq<Row>
    ghost var writes: seq<Write>

    ghost predicate Valid()
      reads this
    {
      rows == Log(hash, writes)
    }

    constructor (hash: string -> string)
      ensures Valid() && this.hash == hash && rows == []
    {
      this.hash, rows, writes := hash, [], [];
    }

    method WriteQuarantine(w: Write) returns (deduped: bool, key: string, seen: nat)
      requires Valid()
      modifies this
      ensures Valid() && writes == old(writes) + [w]
      ensures key == KeyOf(hash, w)
      ensures deduped <==> exists r <- old(rows) :: r.key == key
      ensures exists r <- rows :: r.key == key && r.seen == seen
    {
      hide Packed;
      key := hash(Packed(w.edge));
      var i := 0;
      while i < |rows| && rows[i].key != key
        invariant 0 <= i <= |rows|
        invariant forall j :: 0 <= j < i ==> rows[j].key != key
      {
        i := i + 1;
      }
      deduped := i < |rows|;
      assert i == Find(rows, key);
      if deduped {
        var row := rows[i];
        var reasons := Collect(row.reasons, w.reasons);
        var warnings := Collect(row.warnings, w.warnings);
        row := row.(seen := row.seen + 1, lastSeenAt := w.now, reasons := reasons, warnings := warnings);
        assert rows[i] in rows;
        rows := rows[i := row];
      } else {
        rows := rows + [Fresh(key, w)];
      }
      seen := rows[i].seen;
      assert rows[i] in rows;
      writes := writes + [w];
      assert writes[..|writes| - 1] == old(writes);
    }
  }

  method Collect(items: seq<string>, values: seq<string>) returns (r: seq<string>)
    ensures r == AppendAll(items, values)
  {
    r := items;
    var i := 0;
    while i < |values|
      invariant 0 <= i <= |values|
      invariant r == AppendAll(items, values[..i])
    {
      assert values[..i + 1][..i] == values[..i];
      r := AppendUnique(r, values[i]);
      i := i + 1;
    }
    assert values[..|values|] == values;
  }
}
