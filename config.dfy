/**
 * The CRI configuration patcher: the decoded TOML document is a tree of
 * tables, arrays and scalars, and registering a runtime writes one entry
 * under the fixed table path plugins."io.containerd.grpc.v1.cri".containerd.runtimes,
 * creating the tables that are missing on the way.
 */
module Config {
  import opened Outcomes

  /** A TOML scalar as the decoder hands it over; floats and date-times keep their literal text. */
  datatype Scalar = Str(s: string) | Int(i: int) | Bool(b: bool) | Literal(text: string)

  /** One node of the decoded document: a scalar, a table, or an array. */
  datatype Value =
    | Scalar(scalar: Scalar)
    | Mapping(fields: map<string, Value>)
    | Sequence(items: seq<Value>)

  /** The top-level table of a decoded configuration file. */
  type Document = map<string, Value>

  /** Why no patched document could be produced. */
  datatype PatchError =
    | ParseError               // the text did not decode
    | TypeMismatch(key: string) // the key on the fixed path holds something other than a table

  /** The tables leading from the document root to the runtime registry. */
  const RuntimesPath: seq<string> := ["plugins", "io.containerd.grpc.v1.cri", "containerd", "runtimes"]

  const RuntimeTypeField: string := "runtime_type"

  /** The registry entry for one runtime: a table whose only field is runtime_type. */
  function Entry(runtimeType: string): Value {
    Mapping(map[RuntimeTypeField := Scalar(Str(runtimeType))])
  }

  /** The value stored under `key` in the table reached by following `path`, if every step is a table. */
  function Find(m: Document, path: seq<string>, key: string): Option<Value>
    decreases |path|
  {
    if path == [] then (if key in m then Some(m[key]) else None)
    else if path[0] in m && m[path[0]].Mapping? then Find(m[path[0]].fields, path[1..], key)
    else None
  }

  /** Every key of `path` that is present, level by level, holds a table. */
  predicate Walkable(m: Document, path: seq<string>)
    decreases |path|
  {
    path == [] || path[0] !in m || (m[path[0]].Mapping? && Walkable(m[path[0]].fields, path[1..]))
  }

  /** The `i`-th key of `path` is present at its level and is not a table. */
  predicate Conflict(m: Document, path: seq<string>, i: nat)
    requires i < |path|
  {
    match Find(m, path[..i], path[i])
    case Some(v) => !v.Mapping?
    case None => false
  }

  /** The table under `key`, an empty table when the key is absent, or the type error. */
  function Descend(m: Document, key: string): Result<Document, PatchError> {
    if key !in m then Ok(map[])
    else match m[key]
      case Mapping(fields) => Ok(fields)
      case _ => Err(TypeMismatch(key))
  }

  /** Store `v` under `key` in the table at `path`, creating missing tables and putting each level back. */
  function PutAt(m: Document, path: seq<string>, key: string, v: Value): Result<Document, PatchError>
    decreases |path|
  {
    if path == [] then Ok(m[key := v])
    else
      match Descend(m, path[0])
      case Err(e) => Err(e)
      case Ok(child) =>
        match PutAt(child, path[1..], key, v)
        case Err(e) => Err(e)
        case Ok(child') => Ok(m[path[0] := Mapping(child')])
  }

  /** The document that holds nothing but `v` under `key` at the end of `path`. */
  function Nest(path: seq<string>, key: string, v: Value): Document
    decreases |path|
  {
    if path == [] then map[key := v] else map[path[0] := Mapping(Nest(path[1..], key, v))]
  }

  /** Register runtime `name` with type `runtimeType` in a decoded document. */
  function Patch(doc: Document, name: string, runtimeType: string): Result<Document, PatchError> {
    PutAt(doc, RuntimesPath, name, Entry(runtimeType))
  }

  /**
   * updateConfig after decoding: each level of the fixed path is looked up,
   * checked to be a table (or created empty), the entry is written into the
   * registry, and every level is put back into its parent.
   */
  method UpdateConfig(decoded: Option<Document>, name: string, runtimeType: string)
    returns (r: Result<Document, PatchError>)
    ensures decoded.None? ==> r == Err(ParseError)
    ensures decoded.Some? ==> r == Patch(decoded.value, name, runtimeType)
  {
    if decoded.None? {
      return Err(ParseError);
    }
    var cfg := decoded.value;

    var pl: Document := map[];
    if "plugins" in cfg {
      if !cfg["plugins"].Mapping? {
        return Err(TypeMismatch("plugins"));
      }
      pl := cfg["plugins"].fields;
    }

    var cri: Document := map[];
    if "io.containerd.grpc.v1.cri" in pl {
      if !pl["io.containerd.grpc.v1.cri"].Mapping? {
        return Err(TypeMismatch("io.containerd.grpc.v1.cri"));
      }
      cri := pl["io.containerd.grpc.v1.cri"].fields;
    }

    var c8d: Document := map[];
    if "containerd" in cri {
      if !cri["containerd"].Mapping? {
        return Err(TypeMismatch("containerd"));
      }
      c8d := cri["containerd"].fields;
    }

    var runtimes: Document := map[];
    if "runtimes" in c8d {
      if !c8d["runtimes"].Mapping? {
        return Err(TypeMismatch("runtimes"));
      }
      runtimes := c8d["runtimes"].fields;
    }

    runtimes := runtimes[name := Entry(runtimeType)];
    c8d := c8d["runtimes" := Mapping(runtimes)];
    cri := cri["containerd" := Mapping(c8d)];
    pl := pl["io.containerd.grpc.v1.cri" := Mapping(cri)];
    cfg := cfg["plugins" := Mapping(pl)];
    return Ok(cfg);
  }

  // ---------------------------------------------------------------------
  // Properties of the path update, for any path
  // ---------------------------------------------------------------------

  /** Nothing can be found in an empty table. */
  lemma {:induction false} FindInEmpty(path: seq<string>, key: string)
    ensures Find(map[], path, key) == None
  {
  }

  /** An empty table can be walked along any path. */
  lemma {:induction false} EmptyWalkable(path: seq<string>)
    ensures Walkable(map[], path)
  {
  }

  /** Patching an empty table builds exactly the nested chain of new tables. */
  lemma {:induction false} PutAtIntoEmpty(path: seq<string>, key: string, v: Value)
    ensures PutAt(map[], path, key, v) == Ok(Nest(path, key, v))
    decreases |path|
  {
    if path != [] {
      PutAtIntoEmpty(path[1..], key, v);
    }
  }

  /** The update succeeds exactly when every present key on the path holds a table. */
  lemma {:induction false} PutAtOkIffWalkable(m: Document, path: seq<string>, key: string, v: Value)
    ensures PutAt(m, path, key, v).Ok? <==> Walkable(m, path)
    decreases |path|
  {
    if path != [] {
      if path[0] !in m {
        PutAtIntoEmpty(path[1..], key, v);
      } else if m[path[0]].Mapping? {
        PutAtOkIffWalkable(m[path[0]].fields, path[1..], key, v);
      }
    }
  }

  /** Below a table-valued first key, the conflicts of the path are those of its tail. */
  lemma ConflictBelow(m: Document, path: seq<string>, i: nat)
    requires |path| > 0 && path[0] in m && m[path[0]].Mapping?
    requires i < |path| - 1
    ensures Conflict(m, path, i + 1) == Conflict(m[path[0]].fields, path[1..], i)
  {
    assert path[..i + 1][0] == path[0];
    assert path[..i + 1][1..] == path[1..][..i];
  }

  /** A path can be walked exactly when none of its keys is in conflict. */
  lemma {:induction false} WalkableIffNoConflict(m: Document, path: seq<string>)
    ensures Walkable(m, path) <==> forall i :: 0 <= i < |path| ==> !Conflict(m, path, i)
    decreases |path|
  {
    if path == [] {
    } else if path[0] !in m {
      forall i | 0 <= i < |path| ensures !Conflict(m, path, i) {
        if i > 0 {
          assert path[..i][0] == path[0];
        }
      }
    } else if !m[path[0]].Mapping? {
      assert Conflict(m, path, 0);
    } else {
      var child := m[path[0]].fields;
      WalkableIffNoConflict(child, path[1..]);
      assert !Conflict(m, path, 0);
      forall i | 0 <= i < |path| - 1 ensures Conflict(m, path, i + 1) == Conflict(child, path[1..], i) {
        ConflictBelow(m, path, i);
      }
      if !Walkable(child, path[1..]) {
        var i :| 0 <= i < |path| - 1 && Conflict(child, path[1..], i);
        assert Conflict(m, path, i + 1);
      } else {
        forall i | 0 <= i < |path| ensures !Conflict(m, path, i) {
          if i > 0 {
            assert Conflict(m, path, i) == Conflict(child, path[1..], i - 1);
          }
        }
      }
    }
  }

  /** A failed update names the first key on the path that holds something other than a table. */
  lemma {:induction false} PutAtReportsFirstConflict(m: Document, path: seq<string>, key: string, v: Value)
    ensures var r := PutAt(m, path, key, v);
      r.Err? ==>
        exists i :: 0 <= i < |path| && r.error == TypeMismatch(path[i]) && Conflict(m, path, i) &&
          forall j :: 0 <= j < i ==> !Conflict(m, path, j)
    decreases |path|
  {
    var r := PutAt(m, path, key, v);
    if path != [] && r.Err? {
      if path[0] !in m {
        PutAtIntoEmpty(path[1..], key, v);
      } else if !m[path[0]].Mapping? {
        assert Conflict(m, path, 0);
      } else {
        var child := m[path[0]].fields;
        PutAtReportsFirstConflict(child, path[1..], key, v);
        var i :| 0 <= i < |path| - 1 && r.error == TypeMismatch(path[1..][i]) && Conflict(child, path[1..], i) &&
          forall j :: 0 <= j < i ==> !Conflict(child, path[1..], j);
        ConflictBelow(m, path, i);
        assert !Conflict(m, path, 0);
        forall j | 0 <= j < i + 1 ensures !Conflict(m, path, j) {
          if j > 0 {
            ConflictBelow(m, path, j - 1);
          }
        }
      }
    }
  }

  /** After a successful update the new value sits at the end of the path. */
  lemma {:induction false} PutAtStores(m: Document, path: seq<string>, key: string, v: Value)
    requires PutAt(m, path, key, v).Ok?
    ensures Find(PutAt(m, path, key, v).value, path, key) == Some(v)
    decreases |path|
  {
    if path != [] {
      PutAtStores(Descend(m, path[0]).value, path[1..], key, v);
    }
  }

  /**
   * Every key at every level except the one the update goes through is left
   * as it was: at level `i` of the path the sibling `j` keeps its value (or
   * stays absent).
   */
  lemma {:induction false} PutAtKeepsSibling(m: Document, path: seq<string>, key: string, v: Value, i: nat, j: string)
    requires PutAt(m, path, key, v).Ok?
    requires i <= |path| && j != (path + [key])[i]
    ensures Find(PutAt(m, path, key, v).value, path[..i], j) == Find(m, path[..i], j)
    decreases |path|
  {
    if path != [] && i > 0 {
      var child := Descend(m, path[0]).value;
      PutAtKeepsSibling(child, path[1..], key, v, i - 1, j);
      assert path[..i][0] == path[0];
      assert path[..i][1..] == path[1..][..i - 1];
      if path[0] !in m {
        FindInEmpty(path[1..][..i - 1], j);
      }
    }
  }

  /** Writing the same slot again replaces the first write: the last write wins. */
  lemma {:induction false} PutAtOverwrites(m: Document, path: seq<string>, key: string, v: Value, w: Value)
    requires PutAt(m, path, key, v).Ok?
    ensures PutAt(PutAt(m, path, key, v).value, path, key, w) == PutAt(m, path, key, w)
    decreases |path|
  {
    if path != [] {
      var child := Descend(m, path[0]).value;
      var child' := PutAt(child, path[1..], key, v).value;
      var r := m[path[0] := Mapping(child')];
      assert Descend(r, path[0]) == Ok(child');
      PutAtOverwrites(child, path[1..], key, v, w);
      var again := PutAt(child, path[1..], key, w);
      if again.Ok? {
        assert r[path[0] := Mapping(again.value)] == m[path[0] := Mapping(again.value)];
      }
    } else {
      assert m[key := v][key := w] == m[key := w];
    }
  }

  /** Updates of two different slots at the end of the same path commute. */
  lemma {:induction false} PutAtCommutes(m: Document, path: seq<string>, k1: string, v1: Value, k2: string, v2: Value)
    requires k1 != k2
    requires PutAt(m, path, k1, v1).Ok?
    ensures PutAt(m, path, k2, v2).Ok?
    ensures PutAt(PutAt(m, path, k1, v1).value, path, k2, v2) == PutAt(PutAt(m, path, k2, v2).value, path, k1, v1)
    decreases |path|
  {
    PutAtOkIffWalkable(m, path, k1, v1);
    PutAtOkIffWalkable(m, path, k2, v2);
    if path != [] {
      var child := Descend(m, path[0]).value;
      PutAtCommutes(child, path[1..], k1, v1, k2, v2);
      var c1 := PutAt(child, path[1..], k1, v1).value;
      var c2 := PutAt(child, path[1..], k2, v2).value;
      assert Descend(m[path[0] := Mapping(c1)], path[0]) == Ok(c1);
      assert Descend(m[path[0] := Mapping(c2)], path[0]) == Ok(c2);
      var c12 := PutAt(c1, path[1..], k2, v2);
      if c12.Ok? {
        assert m[path[0] := Mapping(c1)][path[0] := Mapping(c12.value)] == m[path[0] := Mapping(c12.value)];
        assert m[path[0] := Mapping(c2)][path[0] := Mapping(c12.value)] == m[path[0] := Mapping(c12.value)];
      }
    } else {
      assert m[k1 := v1][k2 := v2] == m[k2 := v2][k1 := v1];
    }
  }

  // ---------------------------------------------------------------------
  // Properties of registering a runtime
  // ---------------------------------------------------------------------

  /** The patch fails exactly when one of the four path keys holds something other than a table. */
  lemma PatchSucceedsIff(doc: Document, name: string, runtimeType: string)
    ensures Patch(doc, name, runtimeType).Ok? <==> forall i :: 0 <= i < |RuntimesPath| ==> !Conflict(doc, RuntimesPath, i)
  {
    PutAtOkIffWalkable(doc, RuntimesPath, name, Entry(runtimeType));
    WalkableIffNoConflict(doc, RuntimesPath);
  }

  /** A failed patch reports the first key of the path that is not a table, and produces no document. */
  lemma PatchRejectsConflict(doc: Document, name: string, runtimeType: string)
    ensures var r := Patch(doc, name, runtimeType);
      r.Err? ==>
        exists i :: 0 <= i < |RuntimesPath| && r.error == TypeMismatch(RuntimesPath[i]) && Conflict(doc, RuntimesPath, i) &&
          forall j :: 0 <= j < i ==> !Conflict(doc, RuntimesPath, j)
  {
    PutAtReportsFirstConflict(doc, RuntimesPath, name, Entry(runtimeType));
  }

  /** After a successful patch the registry entry for `name` is a table holding only runtime_type. */
  lemma PatchInstallsEntry(doc: Document, name: string, runtimeType: string)
    requires Patch(doc, name, runtimeType).Ok?
    ensures Find(Patch(doc, name, runtimeType).value, RuntimesPath, name)
         == Some(Mapping(map["runtime_type" := Scalar(Str(runtimeType))]))
  {
    PutAtStores(doc, RuntimesPath, name, Entry(runtimeType));
  }

  /**
   * Nothing else changes: top-level keys other than plugins, the siblings at
   * each level of the path, and every other runtime entry keep their values.
   */
  lemma PatchKeepsUnrelated(doc: Document, name: string, runtimeType: string)
    requires Patch(doc, name, runtimeType).Ok?
    ensures var r := Patch(doc, name, runtimeType).value;
      forall i: nat, j :: i <= |RuntimesPath| && j != (RuntimesPath + [name])[i] ==>
        Find(r, RuntimesPath[..i], j) == Find(doc, RuntimesPath[..i], j)
  {
    forall i: nat, j | i <= |RuntimesPath| && j != (RuntimesPath + [name])[i]
      ensures Find(Patch(doc, name, runtimeType).value, RuntimesPath[..i], j) == Find(doc, RuntimesPath[..i], j)
    {
      PutAtKeepsSibling(doc, RuntimesPath, name, Entry(runtimeType), i, j);
    }
  }

  /** Top-level keys other than plugins are untouched. */
  lemma PatchKeepsTopLevel(doc: Document, name: string, runtimeType: string, j: string)
    requires Patch(doc, name, runtimeType).Ok? && j != "plugins"
    ensures var r := Patch(doc, name, runtimeType).value;
      (j in r <==> j in doc) && (j in doc ==> r[j] == doc[j])
  {
    PutAtKeepsSibling(doc, RuntimesPath, name, Entry(runtimeType), 0, j);
  }

  /** Patching an empty document yields exactly the one nested path holding the entry. */
  lemma PatchEmptyDocument(name: string, runtimeType: string)
    ensures Patch(map[], name, runtimeType) == Ok(map[
      "plugins" := Mapping(map[
        "io.containerd.grpc.v1.cri" := Mapping(map[
          "containerd" := Mapping(map[
            "runtimes" := Mapping(map[
              name := Mapping(map["runtime_type" := Scalar(Str(runtimeType))])])])])])])
  {
    PutAtIntoEmpty(RuntimesPath, name, Entry(runtimeType));
  }

  /** Patching twice with the same name and type gives the same document as once. */
  lemma PatchIdempotent(doc: Document, name: string, runtimeType: string)
    requires Patch(doc, name, runtimeType).Ok?
    ensures Patch(Patch(doc, name, runtimeType).value, name, runtimeType) == Patch(doc, name, runtimeType)
  {
    PutAtOverwrites(doc, RuntimesPath, name, Entry(runtimeType), Entry(runtimeType));
  }

  /** Re-registering a name with another type leaves one entry, holding the later type. */
  lemma PatchLastWriteWins(doc: Document, name: string, t1: string, t2: string)
    requires Patch(doc, name, t1).Ok?
    ensures Patch(Patch(doc, name, t1).value, name, t2) == Patch(doc, name, t2)
    ensures Patch(doc, name, t2).Ok?
    ensures Find(Patch(doc, name, t2).value, RuntimesPath, name) == Some(Entry(t2))
  {
    PutAtOverwrites(doc, RuntimesPath, name, Entry(t1), Entry(t2));
    PutAtOkIffWalkable(doc, RuntimesPath, name, Entry(t1));
    PutAtOkIffWalkable(doc, RuntimesPath, name, Entry(t2));
    PutAtStores(doc, RuntimesPath, name, Entry(t2));
  }

  /** Registering two different runtimes gives the same document in either order. */
  lemma PatchCommutes(doc: Document, n1: string, t1: string, n2: string, t2: string)
    requires n1 != n2 && Patch(doc, n1, t1).Ok?
    ensures Patch(doc, n2, t2).Ok?
    ensures Patch(Patch(doc, n1, t1).value, n2, t2) == Patch(Patch(doc, n2, t2).value, n1, t1)
  {
    PutAtCommutes(doc, RuntimesPath, n1, Entry(t1), n2, Entry(t2));
  }
}
