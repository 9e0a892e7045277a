/** Saved snapshots of graphs: two tables, a version counter per graph that restarts from
    MAX + 1, and a prune that keeps the twenty newest. The routes are the only callers. */
module VersionHistory {
  import opened Nets

  const KEEP: nat := 20

  datatype GraphRow = GraphRow(name: string, json: string)

  datatype Note = Text(text: string) | RestoredFrom(version: int)

  datatype VersionRow = VersionRow(id: nat, graph: nat, version: int, name: string, json: string, note: Note)

  datatype Store = Store(graphs: map<nat, GraphRow>, versions: seq<VersionRow>, nextGraph: nat, nextVersion: nat)

  // ----- queries of save_graph_version -----

  // COALESCE(MAX(version), 0) over the rows of one graph.
  function MaxVersion(rows: seq<VersionRow>, g: nat): int {
    if |rows| == 0 then 0
    else
      var before := MaxVersion(rows[..|rows| - 1], g);
      var r := rows[|rows| - 1];
      if r.graph == g && r.version > before then r.version else before
  }

  // How many rows of the graph rank before version `v` in ORDER BY version DESC.
  function CountNewer(rows: seq<VersionRow>, g: nat, v: int): nat {
    if |rows| == 0 then 0
    else
      var r := rows[|rows| - 1];
      CountNewer(rows[..|rows| - 1], g, v) + if r.graph == g && r.version > v then 1 else 0
  }

  predicate Survives(all: seq<VersionRow>, g: nat, r: VersionRow) {
    r.graph != g || CountNewer(all, g, r.version) < KEEP
  }

  // DELETE of the rows of `g` that are not among its newest twenty in `all`.
  function Prune(all: seq<VersionRow>, rows: seq<VersionRow>, g: nat): seq<VersionRow> {
    if |rows| == 0 then []
    else
      var r := rows[|rows| - 1];
      var kept := Prune(all, rows[..|rows| - 1], g);
      if Survives(all, g, r) then kept + [r] else kept
  }

  function Of(rows: seq<VersionRow>, g: nat): seq<VersionRow> {
    if |rows| == 0 then []
    else
      var r := rows[|rows| - 1];
      if r.graph == g then Of(rows[..|rows| - 1], g) + [r] else Of(rows[..|rows| - 1], g)
  }

  function Without(rows: seq<VersionRow>, g: nat): seq<VersionRow> {
    if |rows| == 0 then []
    else
      var r := rows[|rows| - 1];
      if r.graph != g then Without(rows[..|rows| - 1], g) + [r] else Without(rows[..|rows| - 1], g)
  }

  // ----- table operations -----

  function NewRow(s: Store, g: nat, name: string, json: string, note: Note): VersionRow {
    VersionRow(s.nextVersion, g, MaxVersion(s.versions, g) + 1, name, json, note)
  }

  function SaveVersion(s: Store, g: nat, name: string, json: string, note: Note): Store {
    var rows := s.versions + [NewRow(s, g, name, json, note)];
    s.(versions := Prune(rows, rows, g), nextVersion := s.nextVersion + 1)
  }

  function CreateGraph(s: Store, name: string, json: string): Store {
    s.(graphs := s.graphs[s.nextGraph := GraphRow(name, json)], nextGraph := s.nextGraph + 1)
  }

  function UpdateGraph(s: Store, g: nat, name: Option<string>, json: Option<string>): Store {
    if g !in s.graphs then s
    else
      var row := s.graphs[g];
      s.(graphs := s.graphs[g := GraphRow(if name.Some? then name.value else row.name,
                                          if json.Some? then json.value else row.json)])
  }

  function DeleteGraph(s: Store, g: nat): Store {
    s.(graphs := s.graphs - {g}, versions := Without(s.versions, g))
  }

  // The row with the given id, if the table has one.
  function FindVersion(rows: seq<VersionRow>, id: nat): Option<VersionRow> {
    if |rows| == 0 then None
    else if rows[|rows| - 1].id == id then Some(rows[|rows| - 1])
    else FindVersion(rows[..|rows| - 1], id)
  }

  // ----- the routes -----

  datatype Op =
    | Create(name: string, json: string)
    | Import(name: string, json: string)
    | Duplicate(graph: nat, name: string)
    | Update(graph: nat, newName: Option<string>, newJson: Option<string>, note: string)
    | Restore(graph: nat, versionId: nat)
    | Delete(graph: nat)

  // The outcome of a request: refused requests (404) change nothing.
  datatype Reply = Reply(store: Store, accepted: bool)

  function CreateAndSave(s: Store, name: string, json: string, note: Note): Store {
    SaveVersion(CreateGraph(s, name, json), s.nextGraph, name, json, note)
  }

  // A copy of a graph without a document gets an empty one.
  function CopiedJson(row: GraphRow): string {
    if |row.json| == 0 then "{}" else row.json
  }

  function Handle(s: Store, op: Op): Reply {
    match op
    case Create(name, json) => Reply(CreateAndSave(s, name, json, Text("Initial version")), true)
    case Import(name, json) => Reply(CreateAndSave(s, name, json, Text("Imported")), true)
    case Duplicate(g, name) =>
      if g !in s.graphs then Reply(s, false) else Reply(CreateGraph(s, name, CopiedJson(s.graphs[g])), true)
    case Update(g, newName, newJson, note) =>
      if g !in s.graphs then Reply(s, false)
      else
        var s' := UpdateGraph(s, g, newName, newJson);
        if newJson.None? then Reply(s', true)
        else
          var name := if newName.Some? && |newName.value| > 0 then newName.value else s.graphs[g].name;
          Reply(SaveVersion(s', g, name, newJson.value, Text(note)), true)
    case Restore(g, versionId) =>
      if g !in s.graphs then Reply(s, false)
      else
        var v := FindVersion(s.versions, versionId);
        if v.None? || v.value.graph != g then Reply(s, false)
        else
          var s' := UpdateGraph(s, g, None, Some(v.value.json));
          Reply(SaveVersion(s', g, s.graphs[g].name, v.value.json, RestoredFrom(v.value.version)), true)
    case Delete(g) =>
      if g !in s.graphs then Reply(s, false) else Reply(DeleteGraph(s, g), true)
  }

  const EMPTY_STORE := Store(map[], [], 1, 1)

  function After(ops: seq<Op>): Store {
    if |ops| == 0 then EMPTY_STORE else Handle(After(ops[..|ops| - 1]), ops[|ops| - 1]).store
  }

  // ----- the ledger: everything ever saved -----

  // For every existing graph, the documents saved for it since it was created, oldest first.
  type Ledger = map<nat, seq<string>>

  function Page(ledger: Ledger, g: nat): seq<string> {
    if g in ledger then ledger[g] else []
  }

  // What a request adds to the ledger.
  function Entered(s: Store, ledger: Ledger, op: Op): Ledger {
    if !Handle(s, op).accepted then ledger
    else
      match op
      case Create(_, json) => ledger[s.nextGraph := [json]]
      case Import(_, json) => ledger[s.nextGraph := [json]]
      case Duplicate(_, _) => ledger[s.nextGraph := []]
      case Update(g, _, newJson, _) => if newJson.Some? then ledger[g := Page(ledger, g) + [newJson.value]] else ledger
      case Restore(g, versionId) => ledger[g := Page(ledger, g) + [FindVersion(s.versions, versionId).value.json]]
      case Delete(g) => ledger - {g}
  }

  function LedgerAfter(ops: seq<Op>): Ledger {
    if |ops| == 0 then map[]
    else Entered(After(ops[..|ops| - 1]), LedgerAfter(ops[..|ops| - 1]), ops[|ops| - 1])
  }

  // How many of the first entries of a ledger page are no longer kept.
  function Dropped(n: nat): nat {
    if n > KEEP then n - KEEP else 0
  }

  // The rows of a graph are the last entries of its page, numbered as they were entered.
  ghost predicate WindowOf(rows: seq<VersionRow>, page: seq<string>) {
    && |rows| == |page| - Dropped(|page|)
    && forall i :: 0 <= i < |rows| ==>
         rows[i].version == Dropped(|page|) + i + 1 && rows[i].json == page[Dropped(|page|) + i]
  }

  ghost predicate Consistent(s: Store, ledger: Ledger) {
    && ledger.Keys == s.graphs.Keys
    && (forall g :: g in s.graphs ==> g < s.nextGraph)
    && (forall g :: g in s.graphs ==> WindowOf(Of(s.versions, g), ledger[g]))
    && (forall g :: g !in s.graphs ==> Of(s.versions, g) == [])
    && (forall g :: g in s.graphs && |ledger[g]| > 0 ==> s.graphs[g].json == ledger[g][|ledger[g]| - 1])
  }

  // ----- the queries on one graph's rows -----

  lemma {:induction false} MaxOnlyOf(rows: seq<VersionRow>, g: nat)
    ensures MaxVersion(rows, g) == MaxVersion(Of(rows, g), g)
  {
    if |rows| == 0 {
    } else {
      var rest, r := rows[..|rows| - 1], rows[|rows| - 1];
      MaxOnlyOf(rest, g);
      if r.graph == g {
        assert (Of(rest, g) + [r])[..|Of(rest, g)|] == Of(rest, g);
      }
    }
  }

  lemma {:induction false} CountOnlyOf(rows: seq<VersionRow>, g: nat, v: int)
    ensures CountNewer(rows, g, v) == CountNewer(Of(rows, g), g, v)
  {
    if |rows| == 0 {
    } else {
      var rest, r := rows[..|rows| - 1], rows[|rows| - 1];
      CountOnlyOf(rest, g, v);
      if r.graph == g {
        assert (Of(rest, g) + [r])[..|Of(rest, g)|] == Of(rest, g);
      }
    }
  }

  lemma {:induction false} OfIsOwn(rows: seq<VersionRow>, g: nat)
    ensures forall r :: r in Of(rows, g) ==> r.graph == g && r in rows
  {
    if |rows| == 0 {
    } else {
      OfIsOwn(rows[..|rows| - 1], g);
    }
  }

  // Pruning `g` prunes its rows and leaves every other graph's alone.
  lemma {:induction false} PruneOf(all: seq<VersionRow>, rows: seq<VersionRow>, g: nat, h: nat)
    ensures Of(Prune(all, rows, g), h) == if h == g then Prune(all, Of(rows, g), g) else Of(rows, h)
  {
    if |rows| == 0 {
    } else {
      var rest, r := rows[..|rows| - 1], rows[|rows| - 1];
      PruneOf(all, rest, g, h);
      var kept := Prune(all, rest, g);
      assert (kept + [r])[..|kept|] == kept;
      assert (Of(rest, g) + [r])[..|Of(rest, g)|] == Of(rest, g);
    }
  }

  // Rows of one graph with consecutive version numbers.
  ghost predicate Consecutive(rows: seq<VersionRow>, g: nat, first: int) {
    forall i :: 0 <= i < |rows| ==> rows[i].graph == g && rows[i].version == first + i
  }

  lemma {:induction false} MaxConsecutive(rows: seq<VersionRow>, g: nat, first: int)
    requires Consecutive(rows, g, first) && first >= 1
    ensures MaxVersion(rows, g) == if |rows| == 0 then 0 else first + |rows| - 1
  {
    if |rows| == 0 {
    } else {
      MaxConsecutive(rows[..|rows| - 1], g, first);
    }
  }

  lemma {:induction false} CountConsecutive(rows: seq<VersionRow>, g: nat, first: int, i: nat)
    requires Consecutive(rows, g, first)
    ensures CountNewer(rows, g, first + i) == if |rows| > i then |rows| - 1 - i else 0
  {
    if |rows| == 0 {
    } else {
      CountConsecutive(rows[..|rows| - 1], g, first, i);
    }
  }

  // The newest twenty of consecutive rows are the last twenty.
  lemma {:induction false} PruneConsecutive(all: seq<VersionRow>, rows: seq<VersionRow>, g: nat, first: int, k: nat)
    requires Consecutive(rows, g, first) && Of(all, g) == rows && k <= |rows|
    ensures Prune(all, rows[..k], g) == if k <= Dropped(|rows|) then [] else rows[Dropped(|rows|)..k]
  {
    if k == 0 {
    } else {
      PruneConsecutive(all, rows, g, first, k - 1);
      assert rows[..k][..k - 1] == rows[..k - 1];
      CountOnlyOf(all, g, first + (k - 1));
      CountConsecutive(rows, g, first, k - 1);
    }
  }

  // ----- saving -----

  lemma OfSnoc(rows: seq<VersionRow>, r: VersionRow, h: nat)
    ensures Of(rows + [r], h) == if r.graph == h then Of(rows, h) + [r] else Of(rows, h)
  {
    assert (rows + [r])[..|rows|] == rows;
  }

  lemma WindowIsConsecutive(rows: seq<VersionRow>, g: nat, page: seq<string>)
    requires WindowOf(Of(rows, g), page)
    ensures Consecutive(Of(rows, g), g, Dropped(|page|) + 1)
    ensures MaxVersion(rows, g) == |page|
  {
    var own := Of(rows, g);
    OfIsOwn(rows, g);
    forall i | 0 <= i < |own|
      ensures own[i].graph == g
    {
      assert own[i] in own;
    }
    MaxOnlyOf(rows, g);
    MaxConsecutive(own, g, Dropped(|page|) + 1);
  }

  lemma SaveLeavesOthers(s: Store, g: nat, name: string, json: string, note: Note, h: nat)
    requires h != g
    ensures Of(SaveVersion(s, g, name, json, note).versions, h) == Of(s.versions, h)
  {
    var row := NewRow(s, g, name, json, note);
    OfSnoc(s.versions, row, h);
    PruneOf(s.versions + [row], s.versions + [row], g, h);
  }

  // After a save the graph's rows are its old ones and the new one, less the oldest beyond twenty.
  lemma SaveKeepsLast(s: Store, g: nat, name: string, json: string, note: Note, first: int)
    requires Consecutive(Of(s.versions, g) + [NewRow(s, g, name, json, note)], g, first)
    ensures var own := Of(s.versions, g) + [NewRow(s, g, name, json, note)];
            Of(SaveVersion(s, g, name, json, note).versions, g) == own[Dropped(|own|)..]
  {
    var row := NewRow(s, g, name, json, note);
    var own := Of(s.versions, g) + [row];
    OfSnoc(s.versions, row, g);
    PruneOf(s.versions + [row], s.versions + [row], g, g);
    PruneConsecutive(s.versions + [row], own, g, first, |own|);
    assert own[..|own|] == own;
  }

  lemma WindowSlides(rows: seq<VersionRow>, page: seq<string>, row: VersionRow)
    requires WindowOf(rows, page) && row.version == |page| + 1
    ensures var own := rows + [row]; WindowOf(own[Dropped(|own|)..], page + [row.json])
  {
  }

  // One save: the window slides over the new document.
  lemma SaveSlidesWindow(s: Store, g: nat, name: string, json: string, note: Note, page: seq<string>)
    requires WindowOf(Of(s.versions, g), page)
    ensures WindowOf(Of(SaveVersion(s, g, name, json, note).versions, g), page + [json])
  {
    WindowIsConsecutive(s.versions, g, page);
    SaveKeepsLast(s, g, name, json, note, Dropped(|page|) + 1);
    WindowSlides(Of(s.versions, g), page, NewRow(s, g, name, json, note));
  }

  // The newest row of the graph is the one just inserted.
  lemma SavedIsNewest(s: Store, g: nat, name: string, json: string, note: Note, page: seq<string>)
    requires WindowOf(Of(s.versions, g), page)
    ensures var own := Of(SaveVersion(s, g, name, json, note).versions, g);
            |own| > 0 && own[|own| - 1] == NewRow(s, g, name, json, note)
  {
    WindowIsConsecutive(s.versions, g, page);
    SaveKeepsLast(s, g, name, json, note, Dropped(|page|) + 1);
  }

  lemma {:induction false} WithoutOf(rows: seq<VersionRow>, g: nat, h: nat)
    ensures Of(Without(rows, g), h) == if h == g then [] else Of(rows, h)
  {
    if |rows| == 0 {
    } else {
      var rest, r := rows[..|rows| - 1], rows[|rows| - 1];
      WithoutOf(rest, g, h);
      OfSnoc(Without(rest, g), r, h);
    }
  }

  // ----- every request keeps the books -----

  lemma SaveKeepsConsistent(s0: Store, s: Store, ledger: Ledger, g: nat, name: string, json: string, note: Note)
    requires Consistent(s0, ledger) && g in s0.graphs
    requires s == s0.(graphs := s.graphs) && s.graphs.Keys == s0.graphs.Keys
    requires s.graphs[g].json == json && forall h :: h in s0.graphs && h != g ==> s.graphs[h] == s0.graphs[h]
    ensures Consistent(SaveVersion(s, g, name, json, note), ledger[g := ledger[g] + [json]])
  {
    SaveSlidesWindow(s, g, name, json, note, ledger[g]);
    forall h | h != g
      ensures Of(SaveVersion(s, g, name, json, note).versions, h) == Of(s.versions, h)
    {
      SaveLeavesOthers(s, g, name, json, note, h);
    }
  }

  lemma CreateKeepsConsistent(s: Store, ledger: Ledger, name: string, json: string)
    requires Consistent(s, ledger)
    ensures s.nextGraph !in s.graphs
    ensures Consistent(CreateGraph(s, name, json), ledger[s.nextGraph := []])
  {
  }

  lemma CreateAndSaveKeepsConsistent(s: Store, ledger: Ledger, name: string, json: string, note: Note)
    requires Consistent(s, ledger)
    ensures Consistent(CreateAndSave(s, name, json, note), ledger[s.nextGraph := [json]])
  {
    CreateKeepsConsistent(s, ledger, name, json);
    var g, s' := s.nextGraph, CreateGraph(s, name, json);
    var ledger' := ledger[g := []];
    SaveKeepsConsistent(s', s', ledger', g, name, json, note);
    assert ledger'[g] + [json] == [json];
    assert ledger'[g := [json]] == ledger[g := [json]];
  }

  lemma UpdateKeepsConsistent(
    s: Store, ledger: Ledger, g: nat, newName: Option<string>, newJson: Option<string>, note: string)
    requires Consistent(s, ledger) && g in s.graphs
    ensures var op := Update(g, newName, newJson, note); Consistent(Handle(s, op).store, Entered(s, ledger, op))
  {
    if newJson.Some? {
      var name := if newName.Some? && |newName.value| > 0 then newName.value else s.graphs[g].name;
      SaveKeepsConsistent(s, UpdateGraph(s, g, newName, newJson), ledger, g, name, newJson.value, Text(note));
    }
  }

  lemma RestoreKeepsConsistent(s: Store, ledger: Ledger, g: nat, versionId: nat)
    requires Consistent(s, ledger) && Handle(s, Restore(g, versionId)).accepted
    ensures var op := Restore(g, versionId); Consistent(Handle(s, op).store, Entered(s, ledger, op))
  {
    var v := FindVersion(s.versions, versionId).value;
    var s' := UpdateGraph(s, g, None, Some(v.json));
    SaveKeepsConsistent(s, s', ledger, g, s.graphs[g].name, v.json, RestoredFrom(v.version));
  }

  lemma DeleteKeepsConsistent(s: Store, ledger: Ledger, g: nat)
    requires Consistent(s, ledger)
    ensures Consistent(DeleteGraph(s, g), ledger - {g})
  {
    forall h
      ensures Of(Without(s.versions, g), h) == if h == g then [] else Of(s.versions, h)
    {
      WithoutOf(s.versions, g, h);
    }
  }

  lemma HandleKeepsConsistent(s: Store, ledger: Ledger, op: Op)
    requires Consistent(s, ledger)
    ensures Consistent(Handle(s, op).store, Entered(s, ledger, op))
  {
    if Handle(s, op).accepted {
      match op {
        case Create(name, json) => CreateAndSaveKeepsConsistent(s, ledger, name, json, Text("Initial version"));
        case Import(name, json) => CreateAndSaveKeepsConsistent(s, ledger, name, json, Text("Imported"));
        case Duplicate(g, name) => CreateKeepsConsistent(s, ledger, name, CopiedJson(s.graphs[g]));
        case Update(g, newName, newJson, note) => UpdateKeepsConsistent(s, ledger, g, newName, newJson, note);
        case Restore(g, versionId) => RestoreKeepsConsistent(s, ledger, g, versionId);
        case Delete(g) => DeleteKeepsConsistent(s, ledger, g);
      }
    }
  }

  lemma {:induction false} RequestsKeepConsistent(ops: seq<Op>)
    ensures Consistent(After(ops), LedgerAfter(ops))
  {
    if |ops| == 0 {
    } else {
      var before := ops[..|ops| - 1];
      RequestsKeepConsistent(before);
      HandleKeepsConsistent(After(before), LedgerAfter(before), ops[|ops| - 1]);
    }
  }

  // Over every sequence of requests: the rows of a graph are the last min(n, 20) of the n
  // documents saved for it, numbered consecutively up to n, and whenever there is a snapshot
  // the newest one is the graph's current document.
  lemma HistoryIsLastTwenty(ops: seq<Op>)
    ensures Consistent(After(ops), LedgerAfter(ops))
    ensures forall g :: g in After(ops).graphs ==> HoldsLast(Of(After(ops).versions, g), LedgerAfter(ops)[g], 20)
  {
    RequestsKeepConsistent(ops);
    var s, ledger := After(ops), LedgerAfter(ops);
    forall g | g in s.graphs
      ensures HoldsLast(Of(s.versions, g), ledger[g], 20)
    {
      WindowHoldsLast(Of(s.versions, g), ledger[g]);
    }
  }

  lemma WindowHoldsLast(rows: seq<VersionRow>, page: seq<string>)
    requires WindowOf(rows, page)
    ensures HoldsLast(rows, page, 20)
  {
  }

  // The rows are those of the last `n` documents, or of all if there are fewer.
  ghost predicate HoldsLast(rows: seq<VersionRow>, page: seq<string>, n: nat) {
    && |rows| == (if |page| > n then n else |page|)
    && forall i :: 0 <= i < |rows| ==>
         var k := |page| - |rows| + i;
         rows[i].version == k + 1 && rows[i].json == page[k]
  }

  // ----- what one request leaves alone, and what a restore brings back -----

  // The graph a request is about.
  function Target(s: Store, op: Op): nat {
    match op
    case Create(_, _) => s.nextGraph
    case Import(_, _) => s.nextGraph
    case Duplicate(_, _) => s.nextGraph
    case Update(g, _, _, _) => g
    case Restore(g, _) => g
    case Delete(g) => g
  }

  // No request reaches beyond its target: another graph keeps its row and its history.
  lemma OthersUntouched(s: Store, op: Op, h: nat)
    requires h != Target(s, op)
    ensures var s' := Handle(s, op).store;
            && Of(s'.versions, h) == Of(s.versions, h)
            && (h in s'.graphs <==> h in s.graphs) && (h in s.graphs ==> s'.graphs[h] == s.graphs[h])
  {
    match op {
      case Create(name, json) =>
        SaveLeavesOthers(CreateGraph(s, name, json), s.nextGraph, name, json, Text("Initial version"), h);
      case Import(name, json) =>
        SaveLeavesOthers(CreateGraph(s, name, json), s.nextGraph, name, json, Text("Imported"), h);
      case Duplicate(_, _) =>
      case Update(g, newName, newJson, note) =>
        if g in s.graphs && newJson.Some? {
          var name := if newName.Some? && |newName.value| > 0 then newName.value else s.graphs[g].name;
          SaveLeavesOthers(UpdateGraph(s, g, newName, newJson), g, name, newJson.value, Text(note), h);
        }
      case Restore(g, versionId) =>
        var v := FindVersion(s.versions, versionId);
        if g in s.graphs && v.Some? {
          SaveLeavesOthers(UpdateGraph(s, g, None, Some(v.value.json)), g, s.graphs[g].name, v.value.json,
                           RestoredFrom(v.value.version), h);
        }
      case Delete(g) => WithoutOf(s.versions, g, h);
    }
  }

  // Restoring a retained version makes its document current again and files it as the
  // newest snapshot, one number up, under a note that names the version restored.
  lemma RestoreBringsBack(ops: seq<Op>, g: nat, versionId: nat)
    requires g in After(ops).graphs
    requires var v := FindVersion(After(ops).versions, versionId); v.Some? && v.value.graph == g
    ensures var s := After(ops);
            var v := FindVersion(s.versions, versionId).value;
            var r := Handle(s, Restore(g, versionId));
            var own := Of(r.store.versions, g);
            && r.accepted && r.store.graphs[g] == GraphRow(s.graphs[g].name, v.json) && |own| > 0
            && var newest := own[|own| - 1];
               && newest.json == v.json && newest.name == s.graphs[g].name && newest.note == RestoredFrom(v.version)
               && newest.version == MaxVersion(s.versions, g) + 1
  {
    var s := After(ops);
    var v := FindVersion(s.versions, versionId).value;
    RequestsKeepConsistent(ops);
    SavedIsNewest(UpdateGraph(s, g, None, Some(v.json)), g, s.graphs[g].name, v.json, RestoredFrom(v.version),
        LedgerAfter(ops)[g]);
  }
}
