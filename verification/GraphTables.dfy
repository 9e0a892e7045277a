/** The two tables as the program has them: rows inserted, updated and deleted in place. */
module GraphTables {
  import opened Nets
  import opened VersionHistory

  class GraphStore {
    var graphs: map<nat, GraphRow>
    var versions: seq<VersionRow>
    var nextGraph: nat
    var nextVersion: nat

    ghost function Snapshot(): Store
      reads this
    {
      Store(graphs, versions, nextGraph, nextVersion)
    }

    constructor ()
      ensures Snapshot() == EMPTY_STORE
    {
      graphs := map[];
      versions := [];
      nextGraph := 1;
      nextVersion := 1;
    }

    method InsertGraph(name: string, json: string) returns (id: nat)
      modifies this`graphs, this`nextGraph
      ensures id == old(nextGraph)
      ensures Snapshot() == CreateGraph(old(Snapshot()), name, json)
    {
      id := nextGraph;
      graphs := graphs[id := GraphRow(name, json)];
      nextGraph := nextGraph + 1;
    }

    method SetGraph(g: nat, name: Option<string>, json: Option<string>)
      modifies this`graphs
      ensures Snapshot() == UpdateGraph(old(Snapshot()), g, name, json)
    {
      if g in graphs {
        if name.Some? {
          graphs := graphs[g := graphs[g].(name := name.value)];
        }
        if json.Some? {
          graphs := graphs[g := graphs[g].(json := json.value)];
        }
        assert graphs == UpdateGraph(old(Snapshot()), g, name, json).graphs;
      }
    }

    method RemoveGraph(g: nat)
      modifies this`graphs, this`versions
      ensures Snapshot() == DeleteGraph(old(Snapshot()), g)
    {
      var kept := [];
      for k := 0 to |versions|
        invariant kept == Without(versions[..k], g)
      {
        assert versions[..k + 1][..k] == versions[..k];
        if versions[k].graph != g {
          kept := kept + [versions[k]];
        }
      }
      assert versions[..|versions|] == versions;
      versions := kept;
      graphs := graphs - {g};
    }

    method HighestVersion(g: nat) returns (max: int)
      ensures max == MaxVersion(versions, g)
    {
      max := 0;
      for k := 0 to |versions|
        invariant max == MaxVersion(versions[..k], g)
      {
        assert versions[..k + 1][..k] == versions[..k];
        if versions[k].graph == g && versions[k].version > max {
          max := versions[k].version;
        }
      }
      assert versions[..|versions|] == versions;
    }

    method Rank(g: nat, v: int) returns (newer: nat)
      ensures newer == CountNewer(versions, g, v)
    {
      newer := 0;
      for k := 0 to |versions|
        invariant newer == CountNewer(versions[..k], g, v)
      {
        assert versions[..k + 1][..k] == versions[..k];
        if versions[k].graph == g && versions[k].version > v {
          newer := newer + 1;
        }
      }
      assert versions[..|versions|] == versions;
    }

    // DELETE ... WHERE id NOT IN (the newest twenty).
    method PruneVersions(g: nat)
      modifies this`versions
      ensures versions == Prune(old(versions), old(versions), g)
    {
      var kept := [];
      for k := 0 to |versions|
        invariant versions == old(versions)
        invariant kept == Prune(versions, versions[..k], g)
      {
        assert versions[..k + 1][..k] == versions[..k];
        var newer := Rank(g, versions[k].version);
        if versions[k].graph != g || newer < KEEP {
          kept := kept + [versions[k]];
        }
      }
      assert versions[..|versions|] == versions;
      versions := kept;
    }

    // INSERT with the next version number of the graph.
    method InsertVersion(g: nat, name: string, json: string, note: Note)
      modifies this`versions, this`nextVersion
      ensures versions == old(versions) + [NewRow(old(Snapshot()), g, name, json, note)]
      ensures nextVersion == old(nextVersion) + 1
    {
      var highest := HighestVersion(g);
      versions := versions + [VersionRow(nextVersion, g, highest + 1, name, json, note)];
      nextVersion := nextVersion + 1;
    }

    // save_graph_version: number the snapshot, insert it, prune.
    method SaveGraphVersion(g: nat, name: string, json: string, note: Note)
      modifies this`versions, this`nextVersion
      ensures Snapshot() == SaveVersion(old(Snapshot()), g, name, json, note)
    {
      InsertVersion(g, name, json, note);
      ghost var rows := versions;
      PruneVersions(g);
      assert versions == Prune(rows, rows, g);
    }

    // ----- the routes -----

    method ApiCreate(name: string, json: string) returns (accepted: bool)
      modifies this
      ensures Reply(Snapshot(), accepted) == Handle(old(Snapshot()), Create(name, json))
    {
      var id := InsertGraph(name, json);
      SaveGraphVersion(id, name, json, Text("Initial version"));
      return true;
    }

    method ApiImport(name: string, json: string) returns (accepted: bool)
      modifies this
      ensures Reply(Snapshot(), accepted) == Handle(old(Snapshot()), Import(name, json))
    {
      var id := InsertGraph(name, json);
      SaveGraphVersion(id, name, json, Text("Imported"));
      return true;
    }

    // A duplicate starts without a history.
    method ApiDuplicate(g: nat, name: string) returns (accepted: bool)
      modifies this
      ensures Reply(Snapshot(), accepted) == Handle(old(Snapshot()), Duplicate(g, name))
    {
      if g !in graphs {
        return false;
      }
      var id := InsertGraph(name, CopiedJson(graphs[g]));
      return true;
    }

    method ApiUpdate(g: nat, newName: Option<string>, newJson: Option<string>, note: string) returns (accepted: bool)
      modifies this
      ensures Reply(Snapshot(), accepted) == Handle(old(Snapshot()), Update(g, newName, newJson, note))
    {
      if g !in graphs {
        return false;
      }
      var name := graphs[g].name;
      SetGraph(g, newName, newJson);
      if newJson.Some? {
        if newName.Some? && |newName.value| > 0 {
          name := newName.value;
        }
        SaveGraphVersion(g, name, newJson.value, Text(note));
      }
      return true;
    }

    method ApiRestore(g: nat, versionId: nat) returns (accepted: bool)
      modifies this
      ensures Reply(Snapshot(), accepted) == Handle(old(Snapshot()), Restore(g, versionId))
    {
      if g !in graphs {
        return false;
      }
      var name := graphs[g].name;
      var v := FindVersion(versions, versionId);
      if v.None? || v.value.graph != g {
        return false;
      }
      SetGraph(g, None, Some(v.value.json));
      SaveGraphVersion(g, name, v.value.json, RestoredFrom(v.value.version));
      return true;
    }

    method ApiDelete(g: nat) returns (accepted: bool)
      modifies this
      ensures Reply(Snapshot(), accepted) == Handle(old(Snapshot()), Delete(g))
    {
      if g !in graphs {
        return false;
      }
      RemoveGraph(g);
      return true;
    }
  }
}
