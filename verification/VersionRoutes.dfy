/** What each route does to the tables, over every sequence of requests before it: which
    requests are refused, and what an accepted one changes. */
module VersionRoutes {
  import opened Nets
  import opened VersionHistory

  // ----- row ids -----

  // Row ids are handed out in order and used once.
  ghost predicate FreshIds(s: Store) {
    && (forall r :: r in s.versions ==> r.id < s.nextVersion)
    && forall i, j :: 0 <= i < j < |s.versions| ==> s.versions[i].id != s.versions[j].id
  }

  // Rows taken out of `rows`, in their order.
  ghost predicate Thinned(kept: seq<VersionRow>, rows: seq<VersionRow>) {
    && (forall r :: r in kept ==> r in rows)
    && ((forall i, j :: 0 <= i < j < |rows| ==> rows[i].id != rows[j].id) ==>
          forall i, j :: 0 <= i < j < |kept| ==> kept[i].id != kept[j].id)
  }

  lemma ThinnedSnoc(kept: seq<VersionRow>, rows: seq<VersionRow>, r: VersionRow)
    requires Thinned(kept, rows)
    ensures Thinned(kept, rows + [r]) && Thinned(kept + [r], rows + [r])
  {
    var all := rows + [r];
    assert forall i :: 0 <= i < |rows| ==> all[i] == rows[i];
    if forall i, j :: 0 <= i < j < |all| ==> all[i].id != all[j].id {
      assert forall i, j :: 0 <= i < j < |rows| ==> all[i].id != all[j].id;
      forall k | k in kept
        ensures k.id != r.id
      {
        var i :| 0 <= i < |rows| && rows[i] == k;
        assert all[i].id != all[|rows|].id;
      }
    }
  }

  lemma {:induction false} PruneThins(all: seq<VersionRow>, rows: seq<VersionRow>, g: nat)
    ensures Thinned(Prune(all, rows, g), rows)
  {
    if |rows| == 0 {
    } else {
      var rest, r := rows[..|rows| - 1], rows[|rows| - 1];
      PruneThins(all, rest, g);
      ThinnedSnoc(Prune(all, rest, g), rest, r);
      assert rest + [r] == rows;
    }
  }

  lemma {:induction false} WithoutThins(rows: seq<VersionRow>, g: nat)
    ensures Thinned(Without(rows, g), rows)
  {
    if |rows| == 0 {
    } else {
      var rest, r := rows[..|rows| - 1], rows[|rows| - 1];
      WithoutThins(rest, g);
      ThinnedSnoc(Without(rest, g), rest, r);
      assert rest + [r] == rows;
    }
  }

  lemma SaveKeepsIds(s: Store, g: nat, name: string, json: string, note: Note)
    requires FreshIds(s)
    ensures FreshIds(SaveVersion(s, g, name, json, note))
  {
    var rows := s.versions + [NewRow(s, g, name, json, note)];
    assert forall i :: 0 <= i < |s.versions| ==> s.versions[i] in s.versions;
    PruneThins(rows, rows, g);
  }

  lemma HandleKeepsIds(s: Store, op: Op)
    requires FreshIds(s)
    ensures FreshIds(Handle(s, op).store)
  {
    match op {
      case Create(name, json) =>
        SaveKeepsIds(CreateGraph(s, name, json), s.nextGraph, name, json, Text("Initial version"));
      case Import(name, json) =>
        SaveKeepsIds(CreateGraph(s, name, json), s.nextGraph, name, json, Text("Imported"));
      case Duplicate(_, _) =>
      case Update(g, newName, newJson, note) =>
        if g in s.graphs && newJson.Some? {
          var name := if newName.Some? && |newName.value| > 0 then newName.value else s.graphs[g].name;
          SaveKeepsIds(UpdateGraph(s, g, newName, newJson), g, name, newJson.value, Text(note));
        }
      case Restore(g, versionId) =>
        var v := FindVersion(s.versions, versionId);
        if g in s.graphs && v.Some? {
          SaveKeepsIds(UpdateGraph(s, g, None, Some(v.value.json)), g, s.graphs[g].name, v.value.json,
                       RestoredFrom(v.value.version));
        }
      case Delete(g) => WithoutThins(s.versions, g);
    }
  }

  lemma {:induction false} IdsAreUnique(ops: seq<Op>)
    ensures FreshIds(After(ops))
  {
    if |ops| == 0 {
    } else {
      IdsAreUnique(ops[..|ops| - 1]);
      HandleKeepsIds(After(ops[..|ops| - 1]), ops[|ops| - 1]);
    }
  }

  lemma {:induction false} OfMember(rows: seq<VersionRow>, g: nat, r: VersionRow)
    ensures r in Of(rows, g) <==> r in rows && r.graph == g
  {
    if |rows| == 0 {
    } else {
      var rest, last := rows[..|rows| - 1], rows[|rows| - 1];
      OfMember(rest, g, r);
      assert r in rows <==> r in rest || r == last;
    }
  }

  lemma {:induction false} FindIs(rows: seq<VersionRow>, id: nat)
    requires forall i, j :: 0 <= i < j < |rows| ==> rows[i].id != rows[j].id
    ensures FindVersion(rows, id).None? ==> forall r :: r in rows ==> r.id != id
    ensures forall r :: r in rows && r.id == id ==> FindVersion(rows, id) == Some(r)
    ensures FindVersion(rows, id).Some? ==> FindVersion(rows, id).value in rows && FindVersion(rows, id).value.id == id
  {
    if |rows| == 0 {
    } else {
      var rest, last := rows[..|rows| - 1], rows[|rows| - 1];
      FindIs(rest, id);
      assert forall r :: r in rows <==> r in rest || r == last;
      forall r | r in rest
        ensures r.id != last.id
      {
        var i :| 0 <= i < |rest| && rest[i] == r;
        assert rows[i].id != rows[|rest|].id;
      }
    }
  }

  // ----- which requests are refused -----

  // A version of `g` with that id is among its rows.
  ghost predicate Retained(s: Store, g: nat, versionId: nat, r: VersionRow) {
    r in Of(s.versions, g) && r.id == versionId
  }

  // A request is refused exactly if its graph does not exist, or, for a restore, if none of the
  // graph's own rows has the id; a refused request changes nothing.
  lemma RefusedIff(ops: seq<Op>, op: Op)
    ensures var s := After(ops);
            Handle(s, op).accepted <==>
              match op
              case Create(_, _) => true
              case Import(_, _) => true
              case Duplicate(g, _) => g in s.graphs
              case Update(g, _, _, _) => g in s.graphs
              case Delete(g) => g in s.graphs
              case Restore(g, versionId) => g in s.graphs && exists r :: Retained(s, g, versionId, r)
    ensures !Handle(After(ops), op).accepted ==> Handle(After(ops), op).store == After(ops)
  {
    if op.Restore? {
      IdsAreUnique(ops);
      OwnRowIff(After(ops), op.graph, op.versionId);
    }
  }

  lemma OwnRowIff(s: Store, g: nat, versionId: nat)
    requires FreshIds(s)
    ensures var v := FindVersion(s.versions, versionId);
            v.Some? && v.value.graph == g <==> exists r :: Retained(s, g, versionId, r)
  {
    FindIs(s.versions, versionId);
    var v := FindVersion(s.versions, versionId);
    if v.Some? {
      OfMember(s.versions, g, v.value);
      assert v.value.graph == g ==> Retained(s, g, versionId, v.value);
    }
    if r :| Retained(s, g, versionId, r) {
      OfMember(s.versions, g, r);
    }
  }

  // ----- what an accepted request does -----

  // The number the next row of the graph gets.
  ghost function NextNumber(s: Store, g: nat): int {
    var own := Of(s.versions, g);
    if |own| == 0 then 1 else own[|own| - 1].version + 1
  }

  lemma NextNumberIs(s: Store, g: nat, page: seq<string>)
    requires WindowOf(Of(s.versions, g), page)
    ensures NextNumber(s, g) == |page| + 1 == MaxVersion(s.versions, g) + 1
  {
    WindowIsConsecutive(s.versions, g, page);
  }

  // The rows are the `old` ones and a new one; of twenty old rows the oldest has gone.
  ghost predicate Filed(
    older: seq<VersionRow>, own: seq<VersionRow>, version: int, name: string, json: string, note: Note)
  {
    && |own| > 0 && own[..|own| - 1] == (if |older| < 20 then older else older[1..])
    && var r := own[|own| - 1];
       r.version == version && r.name == name && r.json == json && r.note == note
  }

  lemma SaveFiles(s: Store, g: nat, name: string, json: string, note: Note, page: seq<string>)
    requires WindowOf(Of(s.versions, g), page)
    ensures Filed(Of(s.versions, g), Of(SaveVersion(s, g, name, json, note).versions, g), NextNumber(s, g),
                  name, json, note)
  {
    NextNumberIs(s, g, page);
    WindowIsConsecutive(s.versions, g, page);
    SaveKeepsLast(s, g, name, json, note, Dropped(|page|) + 1);
    LastOf(Of(s.versions, g), NewRow(s, g, name, json, note));
  }

  lemma LastOf(rows: seq<VersionRow>, r: VersionRow)
    requires |rows| <= 20
    ensures var own := (rows + [r])[Dropped(|rows| + 1)..];
            |own| > 0 && own[|own| - 1] == r && own[..|own| - 1] == if |rows| < 20 then rows else rows[1..]
  {
  }

  ghost predicate Made(s: Store, after: Store, name: string, json: string, note: Note) {
    && s.nextGraph !in s.graphs && s.nextGraph in after.graphs
    && after.graphs[s.nextGraph] == GraphRow(name, json)
    && Filed([], Of(after.versions, s.nextGraph), 1, name, json, note)
  }

  // A new graph, created or imported, has its document and one row, number 1.
  lemma CreatedHas(ops: seq<Op>, name: string, json: string)
    ensures Made(After(ops), Handle(After(ops), Create(name, json)).store, name, json, Text("Initial version"))
    ensures Made(After(ops), Handle(After(ops), Import(name, json)).store, name, json, Text("Imported"))
  {
    RequestsKeepConsistent(ops);
    NewIsMade(After(ops), LedgerAfter(ops), name, json, Text("Initial version"));
    NewIsMade(After(ops), LedgerAfter(ops), name, json, Text("Imported"));
  }

  lemma NewIsMade(s: Store, ledger: Ledger, name: string, json: string, note: Note)
    requires Consistent(s, ledger)
    ensures Made(s, CreateAndSave(s, name, json, note), name, json, note)
  {
    SaveFiles(CreateGraph(s, name, json), s.nextGraph, name, json, note, []);
  }

  // A duplicate has the document of its original, or an empty one, and no rows.
  lemma DuplicateHas(ops: seq<Op>, g: nat, name: string)
    requires g in After(ops).graphs
    ensures var s := After(ops);
            var made := Handle(s, Duplicate(g, name)).store;
            && s.nextGraph !in s.graphs && s.nextGraph in made.graphs && Of(made.versions, s.nextGraph) == []
            && made.graphs[s.nextGraph] ==
                 GraphRow(name, if s.graphs[g].json == "" then "{}" else s.graphs[g].json)
  {
    RequestsKeepConsistent(ops);
  }

  // An update changes what it names. A new document is filed as the next version, under the new
  // name unless that is empty; without one the rows stay as they are.
  lemma UpdatedHas(ops: seq<Op>, g: nat, newName: Option<string>, newJson: Option<string>, note: string)
    requires g in After(ops).graphs
    ensures var s := After(ops);
            var row, after := s.graphs[g], Handle(s, Update(g, newName, newJson, note)).store;
            && g in after.graphs
            && after.graphs[g].name == (match newName case Some(name) => name case None => row.name)
            && match newJson
               case None => after.graphs[g].json == row.json && after.versions == s.versions
               case Some(json) =>
                 && after.graphs[g].json == json
                 && Filed(Of(s.versions, g), Of(after.versions, g), NextNumber(s, g),
                          if newName.Some? && newName.value != "" then newName.value else row.name, json, Text(note))
  {
    RequestsKeepConsistent(ops);
    if newJson.Some? {
      var s := After(ops);
      var name := if newName.Some? && |newName.value| > 0 then newName.value else s.graphs[g].name;
      SaveFiles(UpdateGraph(s, g, newName, newJson), g, name, newJson.value, Text(note), LedgerAfter(ops)[g]);
    }
  }

  // A restore of a row of the graph brings its document back under the graph's name, and files
  // it as the next version with a note of the version restored.
  lemma RestoredHas(ops: seq<Op>, g: nat, r: VersionRow)
    requires g in After(ops).graphs && r in Of(After(ops).versions, g)
    ensures var s := After(ops);
            var after := Handle(s, Restore(g, r.id)).store;
            && g in after.graphs && after.graphs[g] == GraphRow(s.graphs[g].name, r.json)
            && Filed(Of(s.versions, g), Of(after.versions, g), NextNumber(s, g),
                     s.graphs[g].name, r.json, RestoredFrom(r.version))
  {
    RequestsKeepConsistent(ops);
    IdsAreUnique(ops);
    RestoreFiles(After(ops), LedgerAfter(ops), g, r);
  }

  lemma RestoreFiles(s: Store, ledger: Ledger, g: nat, r: VersionRow)
    requires Consistent(s, ledger) && FreshIds(s) && g in s.graphs && r in Of(s.versions, g)
    ensures var after := Handle(s, Restore(g, r.id)).store;
            && g in after.graphs && after.graphs[g] == GraphRow(s.graphs[g].name, r.json)
            && Filed(Of(s.versions, g), Of(after.versions, g), NextNumber(s, g),
                     s.graphs[g].name, r.json, RestoredFrom(r.version))
  {
    var restored := UpdateGraph(s, g, None, Some(r.json));
    RestoreIs(s, g, r);
    SaveFiles(restored, g, s.graphs[g].name, r.json, RestoredFrom(r.version), ledger[g]);
    SaveKeepsGraphs(restored, g, s.graphs[g].name, r.json, RestoredFrom(r.version));
  }

  lemma RestoreIs(s: Store, g: nat, r: VersionRow)
    requires FreshIds(s) && g in s.graphs && r in Of(s.versions, g)
    ensures Handle(s, Restore(g, r.id)).store ==
            SaveVersion(UpdateGraph(s, g, None, Some(r.json)), g, s.graphs[g].name, r.json, RestoredFrom(r.version))
  {
    RetainedIsFound(s, g, r);
  }

  lemma SaveKeepsGraphs(s: Store, g: nat, name: string, json: string, note: Note)
    ensures SaveVersion(s, g, name, json, note).graphs == s.graphs
  {
  }

  lemma RetainedIsFound(s: Store, g: nat, r: VersionRow)
    requires FreshIds(s) && r in Of(s.versions, g)
    ensures FindVersion(s.versions, r.id) == Some(r) && r.graph == g
  {
    OfMember(s.versions, g, r);
    FindIs(s.versions, r.id);
  }

  // A deleted graph is gone with its rows.
  lemma DeletedHas(ops: seq<Op>, g: nat)
    ensures var after := Handle(After(ops), Delete(g)).store;
            g !in after.graphs && Of(after.versions, g) == []
  {
    RequestsKeepConsistent(ops);
    WithoutOf(After(ops).versions, g, g);
  }
}
