/** The CRI-O engine configuration: a TOML document as a nested table of
    values, edited along key paths. `AddRuntime` registers a runtime (copying
    the settings of the `runc` entry when there is one), `DefaultRuntime`
    reads the default, and `RemoveRuntime` deletes a runtime and prunes the
    tables it leaves empty. */
module Crio {
  import opened Wrappers

  /** A TOML value: a table, a string, or any other value (a number, a
      boolean, an array), kept as its text. */
  datatype Value = Table(entries: map<string, Value>) | Str(s: string) | Other(text: string)

  type Tree = map<string, Value>

  /** `GetPath`: the value at a key path, the tree itself for the empty path;
      a missing key, or a key under a value that is not a table, gives nothing. */
  function Get(t: Tree, p: seq<string>): Option<Value>
    decreases |p|
  {
    if |p| == 0 then Some(Table(t))
    else if p[0] !in t then None
    else if |p| == 1 then Some(t[p[0]])
    else if t[p[0]].Table? then Get(t[p[0]].entries, p[1..])
    else None
  }

  /** `SetPath`: the value stored at the key path, creating the tables on the
      way that are missing. */
  function Set(t: Tree, p: seq<string>, v: Value): Tree
    requires |p| > 0
    decreases |p|
  {
    if |p| == 1 then t[p[0] := v]
    else
      var sub := if p[0] in t && t[p[0]].Table? then t[p[0]].entries else map[];
      t[p[0] := Table(Set(sub, p[1..], v))]
  }

  /** `DeletePath`: the last key removed from the table the rest of the path
      leads to; nothing changes when that is not a table. */
  function Delete(t: Tree, p: seq<string>): Tree
    requires |p| > 0
    decreases |p|
  {
    if |p| == 1 then t - {p[0]}
    else if p[0] in t && t[p[0]].Table? then t[p[0] := Table(Delete(t[p[0]].entries, p[1..]))]
    else t
  }

  /** Two key paths part at some position: neither lies under the other. */
  predicate Diverges(p: seq<string>, q: seq<string>)
    decreases |p|
  {
    |p| > 0 && |q| > 0 && (p[0] != q[0] || Diverges(p[1..], q[1..]))
  }

  /** Path `q` lies at or under path `p`. */
  predicate Under(q: seq<string>, p: seq<string>)
  {
    |p| <= |q| && q[..|p|] == p
  }

  /** A value that is not a table. */
  predicate IsLeaf(v: Option<Value>)
  {
    v.Some? && !v.value.Table?
  }

  /** A table with no keys. */
  predicate EmptyTable(v: Option<Value>)
  {
    v.Some? && v.value.Table? && |v.value.entries| == 0
  }

  lemma {:induction false} DivergesSymmetric(p: seq<string>, q: seq<string>)
    requires Diverges(p, q)
    ensures Diverges(q, p)
    decreases |p|
  {
    if p[0] == q[0] {
      DivergesSymmetric(p[1..], q[1..]);
    }
  }

  /** Paths that agree before position `i` and differ at it part. */
  lemma {:induction false} DivergesAt(p: seq<string>, q: seq<string>, i: nat)
    requires i < |p| && i < |q| && p[..i] == q[..i] && p[i] != q[i]
    ensures Diverges(p, q)
    decreases i
  {
    if i > 0 {
      assert p[0] == p[..i][0] && q[0] == q[..i][0];
      assert p[1..][..i - 1] == p[..i][1..] && q[1..][..i - 1] == q[..i][1..];
      DivergesAt(p[1..], q[1..], i - 1);
    }
  }

  /** Paths that part still part when one is extended. */
  lemma {:induction false} DivergesExtend(p: seq<string>, q: seq<string>, r: seq<string>)
    requires Diverges(p, q)
    ensures Diverges(p, q + r)
    decreases |p|
  {
    assert (q + r)[0] == q[0];
    if p[0] == q[0] {
      assert (q + r)[1..] == q[1..] + r;
      DivergesExtend(p[1..], q[1..], r);
    }
  }

  /** Looking up a path in two steps: first its head, then the rest in the
      table found there. */
  lemma {:induction false} GetAppend(t: Tree, r: seq<string>, s: seq<string>)
    ensures Get(t, r + s) ==
      if |s| == 0 then Get(t, r)
      else if Get(t, r).Some? && Get(t, r).value.Table? then Get(Get(t, r).value.entries, s)
      else None
    decreases |r|
  {
    if |r| == 0 {
      assert r + s == s;
    } else if |s| == 0 {
      assert r + s == r;
    } else {
      var rs := r + s;
      assert rs[0] == r[0] && rs[1..] == r[1..] + s;
      if r[0] in t && |r| > 1 && t[r[0]].Table? {
        GetAppend(t[r[0]].entries, r[1..], s);
      }
    }
  }

  /** A stored value can be read back. */
  lemma {:induction false} GetSet(t: Tree, p: seq<string>, v: Value)
    requires |p| > 0
    ensures Get(Set(t, p, v), p) == Some(v)
    decreases |p|
  {
    if |p| > 1 {
      var sub := if p[0] in t && t[p[0]].Table? then t[p[0]].entries else map[];
      GetSet(sub, p[1..], v);
    }
  }

  /** Storing at one path leaves every path that parts from it alone. */
  lemma {:induction false} GetSetOther(t: Tree, p: seq<string>, q: seq<string>, v: Value)
    requires |p| > 0 && Diverges(p, q)
    ensures Get(Set(t, p, v), q) == Get(t, q)
    decreases |p|
  {
    if p[0] == q[0] {
      var sub := if p[0] in t && t[p[0]].Table? then t[p[0]].entries else map[];
      GetSetOther(sub, p[1..], q[1..], v);
    }
  }

  /** After a delete the path holds nothing. */
  lemma {:induction false} GetDelete(t: Tree, p: seq<string>)
    requires |p| > 0
    ensures Get(Delete(t, p), p) == None
    decreases |p|
  {
    if |p| > 1 && p[0] in t && t[p[0]].Table? {
      GetDelete(t[p[0]].entries, p[1..]);
    }
  }

  /** Deleting at one path leaves every path that parts from it alone. */
  lemma {:induction false} GetDeleteOther(t: Tree, p: seq<string>, q: seq<string>)
    requires |p| > 0 && Diverges(p, q)
    ensures Get(Delete(t, p), q) == Get(t, q)
    decreases |p|
  {
    if p[0] == q[0] && p[0] in t && t[p[0]].Table? {
      GetDeleteOther(t[p[0]].entries, p[1..], q[1..]);
    }
  }

  /** A delete never makes a missing path present. */
  lemma {:induction false} DeleteKeepsAbsent(t: Tree, p: seq<string>, q: seq<string>)
    requires |p| > 0 && Get(t, q) == None
    ensures Get(Delete(t, p), q) == None
    decreases |p|
  {
    if |q| > 1 && p[0] == q[0] && |p| > 1 && p[0] in t && t[p[0]].Table? {
      DeleteKeepsAbsent(t[p[0]].entries, p[1..], q[1..]);
    }
  }

  /** A delete keeps every non-table value that does not lie under its path. */
  lemma {:induction false} DeleteKeepsLeaves(t: Tree, p: seq<string>, q: seq<string>)
    requires |p| > 0 && IsLeaf(Get(t, q)) && !Under(q, p)
    ensures Get(Delete(t, p), q) == Get(t, q)
    decreases |p|
  {
    if p[0] == q[0] {
      assert |p| > 1;
      if p[0] in t && t[p[0]].Table? {
        assert |q| > 1;
        assert !Under(q[1..], p[1..]);
        DeleteKeepsLeaves(t[p[0]].entries, p[1..], q[1..]);
      }
    }
  }

  /** What lies under path `r`: the value at `r` itself, or a lookup in the
      table found there. */
  lemma GetUnder(t: Tree, r: seq<string>, q: seq<string>)
    requires Under(q, r)
    ensures |q| == |r| ==> Get(t, q) == Get(t, r)
    ensures |q| > |r| ==>
      Get(t, q) == (if Get(t, r).Some? && Get(t, r).value.Table? then Get(Get(t, r).value.entries, q[|r|..]) else None)
    ensures |q| > |r| && EmptyTable(Get(t, r)) ==> Get(t, q) == None
  {
    GetAppend(t, r, q[|r|..]);
    assert r + q[|r|..] == q;
    if |q| > |r| && EmptyTable(Get(t, r)) {
      assert Get(t, r).value.entries == map[];
    }
  }

  /** Nothing lies under an empty table, so deleting one keeps every
      non-table value. */
  lemma PruneKeepsLeaves(t: Tree, r: seq<string>, q: seq<string>)
    requires |r| > 0 && EmptyTable(Get(t, r)) && IsLeaf(Get(t, q))
    ensures Get(Delete(t, r), q) == Get(t, q)
  {
    if Under(q, r) {
      GetUnder(t, r, q);
      assert false;
    }
    DeleteKeepsLeaves(t, r, q);
  }

  /** Every table on the way to a present path holds the next key, so none is empty. */
  lemma AncestorsNonEmpty(t: Tree, p: seq<string>, j: nat)
    requires j < |p| && Get(t, p).Some?
    ensures Get(t, p[..j]).Some? && Get(t, p[..j]).value.Table? && p[j] in Get(t, p[..j]).value.entries
    ensures !EmptyTable(Get(t, p[..j]))
  {
    GetAppend(t, p[..j], p[j..]);
    assert p[..j] + p[j..] == p;
    var rest := p[j..];
    var e := Get(t, p[..j]).value.entries;
    assert Get(e, rest).Some?;
    assert rest[0] == p[j];
  }

  /** A missing path has nothing under it. */
  lemma AbsentBelow(t: Tree, r: seq<string>, q: seq<string>)
    requires Get(t, r) == None && Under(q, r)
    ensures Get(t, q) == None
  {
    GetAppend(t, r, q[|r|..]);
    assert r + q[|r|..] == q;
  }

  /** Any two paths either part, or one lies at or under the other. */
  lemma {:induction false} PathCases(p: seq<string>, q: seq<string>)
    ensures Diverges(p, q) || Under(q, p) || Under(p, q)
    decreases |p|
  {
    if |p| > 0 && |q| > 0 && p[0] == q[0] {
      PathCases(p[1..], q[1..]);
      if Under(q[1..], p[1..]) {
        assert q[..|p|] == [q[0]] + q[1..][..|p| - 1];
        assert p == [p[0]] + p[1..];
      } else if Under(p[1..], q[1..]) {
        assert p[..|q|] == [p[0]] + p[1..][..|q| - 1];
        assert q == [q[0]] + q[1..];
      }
    }
  }

  /** Paths that part lie under neither one another. */
  lemma {:induction false} DivergesNotUnder(p: seq<string>, q: seq<string>)
    requires Diverges(p, q)
    ensures !Under(q, p) && !Under(p, q)
    decreases |p|
  {
    if p[0] == q[0] {
      DivergesNotUnder(p[1..], q[1..]);
    }
  }

  /** A delete never creates or changes a non-table value. */
  lemma {:induction false} DeleteNoNewLeaves(t: Tree, r: seq<string>, q: seq<string>)
    requires |r| > 0 && IsLeaf(Get(Delete(t, r), q))
    ensures Get(Delete(t, r), q) == Get(t, q)
    decreases |r|
  {
    if |r| > 1 && r[0] in t && t[r[0]].Table? && |q| > 1 && q[0] == r[0] {
      DeleteNoNewLeaves(t[r[0]].entries, r[1..], q[1..]);
    }
  }

  /** Deleting an empty table on the way to `p` changes no path except the
      tables on that way. */
  lemma PruneStepFrame(t: Tree, p: seq<string>, k: nat, q: seq<string>)
    requires 0 < k <= |p| && EmptyTable(Get(t, p[..k])) && !Under(p, q)
    ensures Get(Delete(t, p[..k]), q) == Get(t, q)
  {
    var r := p[..k];
    PathCases(r, q);
    if Diverges(r, q) {
      GetDeleteOther(t, r, q);
    } else if Under(q, r) {
      if |q| == |r| {
        assert false;
      }
      GetUnder(t, r, q);
      GetDelete(t, r);
      AbsentBelow(Delete(t, r), r, q);
    } else {
      assert false;
    }
  }

  /** The entries of the table at a path, or none when there is no table there. */
  function TableAt(t: Tree, r: seq<string>): (e: map<string, Value>)
    ensures Get(t, r).Some? && Get(t, r).value.Table? ==> e == Get(t, r).value.entries
    ensures !(Get(t, r).Some? && Get(t, r).value.Table?) ==> e == map[]
  {
    var g := Get(t, r);
    if g.Some? && g.value.Table? then g.value.entries else map[]
  }

  /** Storing under a table adds that one key to it, the table being created
      (or a non-table value replaced) when there is none. */
  lemma {:induction false} SetChild(t: Tree, r: seq<string>, k: string, v: Value)
    ensures Get(Set(t, r + [k], v), r) == Some(Table(TableAt(t, r)[k := v]))
    decreases |r|
  {
    var rk := r + [k];
    if |r| == 0 {
      assert rk == [k];
    } else {
      assert rk[0] == r[0] && rk[1..] == r[1..] + [k];
      var sub := if r[0] in t && t[r[0]].Table? then t[r[0]].entries else map[];
      SetChild(sub, r[1..], k, v);
      if |r| > 1 && !(r[0] in t && t[r[0]].Table?) {
        assert Get(sub, r[1..]) == None;
      }
      assert TableAt(sub, r[1..]) == TableAt(t, r);
    }
  }

  // ---------------------------------------------------------------------------
  // The configuration

  const RuncTemplatePath: seq<string> := ["cri", "runtime", "runtimes", "runc"]
  const DefaultRuntimeKeyPath: seq<string> := ["crio", "runtime", "default_runtime"]

  /** The table of the runtime with the given name. */
  function RuntimeTablePath(name: string): (p: seq<string>)
    ensures |p| == 4 && Diverges(p, DefaultRuntimeKeyPath) && Diverges(p, RuncTemplatePath)
  {
    var p := ["crio", "runtime", "runtimes", name];
    DivergesAt(p, DefaultRuntimeKeyPath, 2);
    DivergesAt(p, RuncTemplatePath, 0);
    p
  }

  /** The default runtime of a tree: the string at `crio.runtime.default_runtime`, else empty. */
  function DefaultOf(t: Tree): (r: string)
    ensures r != "" ==> Get(t, DefaultRuntimeKeyPath) == Some(Str(r))
    ensures Get(t, DefaultRuntimeKeyPath).Some? && Get(t, DefaultRuntimeKeyPath).value.Str? ==>
              r == Get(t, DefaultRuntimeKeyPath).value.s
  {
    var v := Get(t, DefaultRuntimeKeyPath);
    if v.Some? && v.value.Str? then v.value.s else ""
  }

  /** `crio.Config`: a TOML tree, or none. */
  class CrioConfig {
    var tree: Option<Tree>

    constructor (tree: Option<Tree>)
      ensures this.tree == tree
    {
      this.tree := tree;
    }
  }

  /** `Config.DefaultRuntime`: empty for no config or no tree. */
  function DefaultRuntime(c: CrioConfig?): (r: string)
    reads c
    ensures c == null || c.tree.None? ==> r == ""
    ensures c != null && c.tree.Some? ==> r == DefaultOf(c.tree.value)
  {
    if c == null || c.tree.None? then "" else DefaultOf(c.tree.value)
  }

  /** The table a new runtime entry starts from: the `runc` entry when that is
      a table, otherwise the runtime's existing table, or nothing. */
  function RuntimeBase(t0: Tree, name: string): (e: map<string, Value>)
    ensures Get(t0, RuncTemplatePath).Some? && Get(t0, RuncTemplatePath).value.Table? ==>
              e == Get(t0, RuncTemplatePath).value.entries
    ensures !(Get(t0, RuncTemplatePath).Some? && Get(t0, RuncTemplatePath).value.Table?) ==>
              e == TableAt(t0, RuntimeTablePath(name))
  {
    var tpl := Get(t0, RuncTemplatePath);
    if tpl.Some? && tpl.value.Table? then tpl.value.entries else TableAt(t0, RuntimeTablePath(name))
  }

  /** `Config.AddRuntime`. A nil config is an error; a nil tree inside a
      config would be dereferenced, so the caller must supply one. The
      runtime's table becomes its base table with the two keys set. */
  method AddRuntime(c: CrioConfig?, name: string, path: string, setAsDefault: bool) returns (err: Option<string>)
    requires c != null ==> c.tree.Some?
    modifies c
    ensures c == null <==> err.Some?
    ensures c != null ==> c.tree.Some?
    ensures c != null ==>
      var t, t0 := c.tree.value, old(c.tree.value);
      && Get(t, RuntimeTablePath(name) + ["runtime_path"]) == Some(Str(path))
      && Get(t, RuntimeTablePath(name) + ["runtime_type"]) == Some(Str("oci"))
      && Get(t, RuntimeTablePath(name)) ==
           Some(Table(RuntimeBase(t0, name)["runtime_path" := Str(path)]["runtime_type" := Str("oci")]))
      && (setAsDefault ==> DefaultRuntime(c) == name)
      && (Get(t0, RuncTemplatePath).Some? && Get(t0, RuncTemplatePath).value.Table? ==>
            forall k :: k in Get(t0, RuncTemplatePath).value.entries && k != "runtime_path" && k != "runtime_type" ==>
              Get(t, RuntimeTablePath(name) + [k]) == Some(Get(t0, RuncTemplatePath).value.entries[k]))
      && (forall q :: Diverges(q, RuntimeTablePath(name)) && (setAsDefault ==> Diverges(q, DefaultRuntimeKeyPath)) ==>
            Get(t, q) == Get(t0, q))
  {
    if c == null {
      return Some("config is nil");
    }
    var config := c.tree.value;
    ghost var t0 := config;
    var p := RuntimeTablePath(name);
    var template := Get(config, RuncTemplatePath);
    if template.Some? && template.value.Table? {
      config := Set(config, p, template.value);
    }
    ghost var t1 := config;
    config := Set(config, p + ["runtime_path"], Str(path));
    ghost var t2 := config;
    config := Set(config, p + ["runtime_type"], Str("oci"));
    ghost var t3 := config;
    if setAsDefault {
      config := Set(config, DefaultRuntimeKeyPath, Str(name));
    }
    AddRuntimeFacts(t0, t1, t2, t3, config, name, path, setAsDefault);
    c.tree := Some(config);
    return None;
  }

  /** The successive edits of `AddRuntime` and what each leaves in place. */
  lemma AddRuntimeFacts(t0: Tree, t1: Tree, t2: Tree, t3: Tree, t: Tree, name: string, path: string, setAsDefault: bool)
    requires var tpl := Get(t0, RuncTemplatePath);
      t1 == if tpl.Some? && tpl.value.Table? then Set(t0, RuntimeTablePath(name), tpl.value) else t0
    requires t2 == Set(t1, RuntimeTablePath(name) + ["runtime_path"], Str(path))
    requires t3 == Set(t2, RuntimeTablePath(name) + ["runtime_type"], Str("oci"))
    requires t == if setAsDefault then Set(t3, DefaultRuntimeKeyPath, Str(name)) else t3
    ensures Get(t, RuntimeTablePath(name) + ["runtime_path"]) == Some(Str(path))
    ensures Get(t, RuntimeTablePath(name) + ["runtime_type"]) == Some(Str("oci"))
    ensures Get(t, RuntimeTablePath(name)) ==
              Some(Table(RuntimeBase(t0, name)["runtime_path" := Str(path)]["runtime_type" := Str("oci")]))
    ensures setAsDefault ==> DefaultOf(t) == name
    ensures Get(t0, RuncTemplatePath).Some? && Get(t0, RuncTemplatePath).value.Table? ==>
              forall k :: k in Get(t0, RuncTemplatePath).value.entries && k != "runtime_path" && k != "runtime_type" ==>
                Get(t, RuntimeTablePath(name) + [k]) == Some(Get(t0, RuncTemplatePath).value.entries[k])
    ensures forall q :: Diverges(q, RuntimeTablePath(name)) && (setAsDefault ==> Diverges(q, DefaultRuntimeKeyPath)) ==>
              Get(t, q) == Get(t0, q)
  {
    var p := RuntimeTablePath(name);
    var pathKey, typeKey := p + ["runtime_path"], p + ["runtime_type"];
    assert pathKey[..4] == p == typeKey[..4];
    DivergesAt(pathKey, typeKey, 4);
    DivergesAt(typeKey, pathKey, 4);
    DivergesSymmetric(p, DefaultRuntimeKeyPath);
    DivergesExtend(DefaultRuntimeKeyPath, p, ["runtime_path"]);
    DivergesExtend(DefaultRuntimeKeyPath, p, ["runtime_type"]);
    DivergesSymmetric(DefaultRuntimeKeyPath, pathKey);
    DivergesSymmetric(DefaultRuntimeKeyPath, typeKey);
    GetSet(t1, pathKey, Str(path));
    GetSetOther(t2, typeKey, pathKey, Str("oci"));
    GetSet(t2, typeKey, Str("oci"));
    assert Get(t3, pathKey) == Some(Str(path)) && Get(t3, typeKey) == Some(Str("oci"));
    if setAsDefault {
      GetSet(t3, DefaultRuntimeKeyPath, Str(name));
      GetSetOther(t3, DefaultRuntimeKeyPath, pathKey, Str(name));
      GetSetOther(t3, DefaultRuntimeKeyPath, typeKey, Str(name));
    }
    assert Get(t, pathKey) == Some(Str(path)) && Get(t, typeKey) == Some(Str("oci"));
    var tpl := Get(t0, RuncTemplatePath);
    if tpl.Some? && tpl.value.Table? {
      GetSet(t0, p, tpl.value);
    }
    assert TableAt(t1, p) == RuntimeBase(t0, name);
    SetChild(t1, p, "runtime_path", Str(path));
    SetChild(t2, p, "runtime_type", Str("oci"));
    if setAsDefault {
      GetSetOther(t3, DefaultRuntimeKeyPath, p, Str(name));
    }
    if tpl.Some? && tpl.value.Table? {
      forall k | k in tpl.value.entries && k != "runtime_path" && k != "runtime_type"
        ensures Get(t, p + [k]) == Some(tpl.value.entries[k])
      {
        var key := p + [k];
        GetSet(t0, p, tpl.value);
        GetAppend(t1, p, [k]);
        assert key[..4] == p;
        DivergesAt(pathKey, key, 4);
        DivergesAt(typeKey, key, 4);
        GetSetOther(t1, pathKey, key, Str(path));
        GetSetOther(t2, typeKey, key, Str("oci"));
        if setAsDefault {
          DivergesExtend(DefaultRuntimeKeyPath, p, [k]);
          GetSetOther(t3, DefaultRuntimeKeyPath, key, Str(name));
        }
      }
    }
    forall q | Diverges(q, p) && (setAsDefault ==> Diverges(q, DefaultRuntimeKeyPath))
      ensures Get(t, q) == Get(t0, q)
    {
      DivergesSymmetric(q, p);
      DivergesExtend(q, p, ["runtime_path"]);
      DivergesExtend(q, p, ["runtime_type"]);
      DivergesSymmetric(q, pathKey);
      DivergesSymmetric(q, typeKey);
      if tpl.Some? && tpl.value.Table? {
        GetSetOther(t0, p, q, tpl.value);
      }
      GetSetOther(t1, pathKey, q, Str(path));
      GetSetOther(t2, typeKey, q, Str("oci"));
      if setAsDefault {
        DivergesSymmetric(q, DefaultRuntimeKeyPath);
        GetSetOther(t3, DefaultRuntimeKeyPath, q, Str(name));
      }
    }
  }

  /** The pruning loop of `RemoveRuntime`: from the runtime's table upwards,
      each empty table on the path is deleted, stopping at the first table
      that is not empty. Only the tables on the path can change: none of them
      is left empty, none is replaced by another value, none appears, and
      every path that is not on the way to `p` keeps its value. */
  method Prune(t0: Tree, p: seq<string>) returns (t: Tree)
    requires |p| > 0
    ensures forall j :: 1 <= j <= |p| ==> !EmptyTable(Get(t, p[..j]))
    ensures forall q :: !Under(p, q) ==> Get(t, q) == Get(t0, q)
    ensures forall q :: IsLeaf(Get(t0, q)) ==> Get(t, q) == Get(t0, q)
    ensures forall q :: IsLeaf(Get(t, q)) ==> Get(t, q) == Get(t0, q)
    ensures forall q :: Get(t0, q) == None ==> Get(t, q) == None
  {
    t := t0;
    var i := 0;
    while i < |p|
      invariant 0 <= i <= |p|
      invariant forall j :: |p| - i < j <= |p| ==> !EmptyTable(Get(t, p[..j]))
      invariant forall q :: !Under(p, q) ==> Get(t, q) == Get(t0, q)
      invariant forall q :: IsLeaf(Get(t0, q)) ==> Get(t, q) == Get(t0, q)
      invariant forall q :: IsLeaf(Get(t, q)) ==> Get(t, q) == Get(t0, q)
      invariant forall q :: Get(t0, q) == None ==> Get(t, q) == None
    {
      var remaining := p[..|p| - i];
      var entry := Get(t, remaining);
      if entry.Some? && entry.value.Table? {
        if |entry.value.entries| != 0 {
          forall j | 1 <= j < |p| - i
            ensures !EmptyTable(Get(t, p[..j]))
          {
            AncestorsNonEmpty(t, remaining, j);
            assert remaining[..j] == p[..j];
          }
          break;
        }
        ghost var before := t;
        t := Delete(t, remaining);
        GetDelete(before, remaining);
        forall j | |p| - i < j <= |p|
          ensures Get(t, p[..j]) == None
        {
          assert p[..j][..|remaining|] == remaining;
          AbsentBelow(t, remaining, p[..j]);
        }
        forall q | IsLeaf(Get(before, q))
          ensures Get(t, q) == Get(before, q)
        {
          PruneKeepsLeaves(before, remaining, q);
        }
        forall q | Get(before, q) == None
          ensures Get(t, q) == None
        {
          DeleteKeepsAbsent(before, remaining, q);
        }
        forall q | !Under(p, q)
          ensures Get(t, q) == Get(before, q)
        {
          PruneStepFrame(before, p, |p| - i, q);
        }
        forall q | IsLeaf(Get(t, q))
          ensures Get(t, q) == Get(before, q)
        {
          DeleteNoNewLeaves(before, remaining, q);
        }
      }
      i := i + 1;
    }
  }

  /** What removing the runtime `name` from `t0` leaves in `t`: the runtime's
      table is gone, a default naming it is cleared, every value that lies
      neither on the way to that table nor under the cleared default is kept,
      nothing is added or turned into another value, and no table on the way
      to the runtime's table is left empty. */
  ghost predicate RemovedFrom(t0: Tree, name: string, t: Tree)
  {
    var p, d := RuntimeTablePath(name), DefaultRuntimeKeyPath;
    var cleared := Get(t0, d) == Some(Str(name));
    && Get(t, p) == None
    && (cleared ==> Get(t, d) == None)
    && (forall q :: IsLeaf(Get(t0, q)) && !Under(q, p) && !(q == d && cleared) ==> Get(t, q) == Get(t0, q))
    && (forall q :: Diverges(q, p) && !(cleared && Under(q, d)) ==> Get(t, q) == Get(t0, q))
    && (forall q :: IsLeaf(Get(t, q)) ==> Get(t, q) == Get(t0, q))
    && (forall q :: Get(t0, q) == None ==> Get(t, q) == None)
    && (forall j :: 1 <= j <= 4 ==> !EmptyTable(Get(t, p[..j])))
  }

  /** `Config.RemoveRuntime`. A nil config is left alone; otherwise the tree
      becomes the one `RemovedFrom` describes, which `RemovedFromUnique` shows
      is a single tree. */
  method RemoveRuntime(c: CrioConfig?, name: string) returns (err: Option<string>)
    requires c != null ==> c.tree.Some?
    modifies c
    ensures err.None?
    ensures c != null ==> c.tree.Some?
    ensures c != null ==> RemovedFrom(old(c.tree.value), name, c.tree.value)
  {
    if c == null {
      return None;
    }
    var config := c.tree.value;
    ghost var t0 := config;
    var runtime := Get(config, DefaultRuntimeKeyPath);
    if runtime.Some? && runtime.value.Str? && runtime.value.s == name {
      config := Delete(config, DefaultRuntimeKeyPath);
    }
    ghost var t1 := config;
    var runtimeClassPath := RuntimeTablePath(name);
    config := Delete(config, runtimeClassPath);
    ghost var t2 := config;
    config := Prune(config, runtimeClassPath);
    RemoveFacts(t0, t1, t2, config, name);
    c.tree := Some(config);
    return None;
  }

  /** The two deletes of `RemoveRuntime`, then the pruning, and what they keep. */
  lemma RemoveFacts(t0: Tree, t1: Tree, t2: Tree, t: Tree, name: string)
    requires t1 == if Get(t0, DefaultRuntimeKeyPath) == Some(Str(name)) then Delete(t0, DefaultRuntimeKeyPath) else t0
    requires t2 == Delete(t1, RuntimeTablePath(name))
    requires forall j :: 1 <= j <= 4 ==> !EmptyTable(Get(t, RuntimeTablePath(name)[..j]))
    requires forall q :: !Under(RuntimeTablePath(name), q) ==> Get(t, q) == Get(t2, q)
    requires forall q :: IsLeaf(Get(t2, q)) ==> Get(t, q) == Get(t2, q)
    requires forall q :: IsLeaf(Get(t, q)) ==> Get(t, q) == Get(t2, q)
    requires forall q :: Get(t2, q) == None ==> Get(t, q) == None
    ensures RemovedFrom(t0, name, t)
  {
    var p := RuntimeTablePath(name);
    var d := DefaultRuntimeKeyPath;
    var cleared := Get(t0, d) == Some(Str(name));
    GetDelete(t1, p);
    if cleared {
      GetDelete(t0, d);
      DeleteKeepsAbsent(t1, p, d);
    }
    forall q | IsLeaf(Get(t0, q)) && !Under(q, p) && !(q == d && cleared)
      ensures Get(t2, q) == Get(t0, q)
    {
      if cleared {
        assert !Under(q, d) by {
          if Under(q, d) {
            GetUnder(t0, d, q);
            assert false;
          }
        }
        DeleteKeepsLeaves(t0, d, q);
      }
      DeleteKeepsLeaves(t1, p, q);
    }
    forall q | Diverges(q, p) && !(cleared && Under(q, d))
      ensures Get(t, q) == Get(t0, q)
    {
      DivergesNotUnder(q, p);
      DivergesSymmetric(q, p);
      GetDeleteOther(t1, p, q);
      if cleared {
        DefaultDeleteFrame(t0, name, q);
      }
    }
    forall q | IsLeaf(Get(t, q))
      ensures Get(t, q) == Get(t0, q)
    {
      DeleteNoNewLeaves(t1, p, q);
      if cleared {
        DeleteNoNewLeaves(t0, d, q);
      }
    }
    forall q | Get(t0, q) == None
      ensures Get(t, q) == None
    {
      if cleared {
        DeleteKeepsAbsent(t0, d, q);
      }
      DeleteKeepsAbsent(t1, p, q);
    }
  }

  /** Clearing the default touches nothing that parts from a runtime's table
      and lies outside the default key. */
  lemma DefaultDeleteFrame(t0: Tree, name: string, q: seq<string>)
    requires Diverges(q, RuntimeTablePath(name)) && !Under(q, DefaultRuntimeKeyPath)
    ensures Get(Delete(t0, DefaultRuntimeKeyPath), q) == Get(t0, q)
  {
    var p, d := RuntimeTablePath(name), DefaultRuntimeKeyPath;
    PathCases(d, q);
    if Diverges(d, q) {
      GetDeleteOther(t0, d, q);
    } else {
      DivergesNotUnder(q, p);
      assert false;
    }
  }

  /** Two trees that agree on which paths are present and on every non-table
      value are the same tree. */
  lemma {:induction false} SameTree(a: Tree, b: Tree)
    requires forall q :: Get(a, q).None? <==> Get(b, q).None?
    requires forall q :: IsLeaf(Get(a, q)) || IsLeaf(Get(b, q)) ==> Get(a, q) == Get(b, q)
    ensures a == b
    decreases Table(a)
  {
    forall k | k in a
      ensures k in b && a[k] == b[k]
    {
      assert Get(a, [k]).Some? && Get(b, [k]).Some?;
      if a[k].Table? && b[k].Table? {
        var ea, eb := a[k].entries, b[k].entries;
        forall q | |q| > 0
          ensures Get(ea, q) == Get(a, [k] + q) && Get(eb, q) == Get(b, [k] + q)
        {
          assert ([k] + q)[0] == k && ([k] + q)[1..] == q;
        }
        assert Table(ea) < Table(a) by {
          assert a[k] in a.Values;
        }
        SameTree(ea, eb);
      } else {
        assert IsLeaf(Get(a, [k])) || IsLeaf(Get(b, [k]));
      }
    }
    forall k | k in b
      ensures k in a
    {
      assert Get(b, [k]).Some?;
    }
  }

  /** A non-table value on the way to the runtime's table is the one the
      original tree had there, in every tree `RemovedFrom` allows. */
  lemma LeafOnPath(t0: Tree, name: string, a: Tree, b: Tree, j: nat)
    requires j < 4 && RemovedFrom(t0, name, a) && RemovedFrom(t0, name, b)
    requires IsLeaf(Get(a, RuntimeTablePath(name)[..j]))
    ensures Get(b, RuntimeTablePath(name)[..j]) == Get(a, RuntimeTablePath(name)[..j])
  {
    var q := RuntimeTablePath(name)[..j];
    assert !Under(q, RuntimeTablePath(name));
    assert q != DefaultRuntimeKeyPath by {
      if j == 3 {
        assert q[2] != DefaultRuntimeKeyPath[2];
      }
    }
  }

  /** A table on the way to the runtime's table that one allowed tree keeps is
      kept by every other, given that they agree one level further down. */
  lemma PresentIfChild(t0: Tree, name: string, a: Tree, b: Tree, j: nat)
    requires j < 4 && RemovedFrom(t0, name, a) && RemovedFrom(t0, name, b)
    requires Get(a, RuntimeTablePath(name)[..j]).Some? && Get(a, RuntimeTablePath(name)[..j]).value.Table?
    requires Get(a, RuntimeTablePath(name)[..j + 1]).None? <==> Get(b, RuntimeTablePath(name)[..j + 1]).None?
    ensures Get(b, RuntimeTablePath(name)[..j]).Some?
  {
    var p, d := RuntimeTablePath(name), DefaultRuntimeKeyPath;
    if j > 0 {
      var r := p[..j];
      var e := Get(a, r).value.entries;
      assert !EmptyTable(Get(a, p[..j]));
      var k :| k in e;
      var q := r + [k];
      GetAppend(a, r, [k]);
      assert q[..j] == r;
      if k == p[j] {
        assert q == p[..j + 1];
      } else {
        DivergesAt(q, p, j);
        if Get(t0, d) == Some(Str(name)) && Under(q, d) {
          AbsentBelow(a, d, q);
          assert false;
        }
      }
      AncestorsNonEmpty(b, q, j);
    }
  }

  /** Every table on the way to the runtime's table is present in one allowed
      tree exactly when it is present in another, and holds the same
      non-table value when it is one. */
  lemma {:induction false} OnPathSame(t0: Tree, name: string, a: Tree, b: Tree, j: nat)
    requires j <= 4 && RemovedFrom(t0, name, a) && RemovedFrom(t0, name, b)
    ensures Get(a, RuntimeTablePath(name)[..j]).None? <==> Get(b, RuntimeTablePath(name)[..j]).None?
    ensures IsLeaf(Get(a, RuntimeTablePath(name)[..j])) || IsLeaf(Get(b, RuntimeTablePath(name)[..j])) ==>
              Get(a, RuntimeTablePath(name)[..j]) == Get(b, RuntimeTablePath(name)[..j])
    decreases 4 - j
  {
    var p := RuntimeTablePath(name);
    if j == 4 {
      assert p[..j] == p;
    } else {
      OnPathSame(t0, name, a, b, j + 1);
      var ga, gb := Get(a, p[..j]), Get(b, p[..j]);
      if IsLeaf(ga) {
        LeafOnPath(t0, name, a, b, j);
      } else if IsLeaf(gb) {
        LeafOnPath(t0, name, b, a, j);
      } else {
        if ga.Some? {
          PresentIfChild(t0, name, a, b, j);
        }
        if gb.Some? {
          PresentIfChild(t0, name, b, a, j);
        }
      }
    }
  }

  /** Two allowed trees agree at every path on whether it is present and on
      its non-table value. */
  lemma SameAt(t0: Tree, name: string, a: Tree, b: Tree, q: seq<string>)
    requires RemovedFrom(t0, name, a) && RemovedFrom(t0, name, b)
    ensures Get(a, q).None? <==> Get(b, q).None?
    ensures IsLeaf(Get(a, q)) || IsLeaf(Get(b, q)) ==> Get(a, q) == Get(b, q)
  {
    var p, d := RuntimeTablePath(name), DefaultRuntimeKeyPath;
    PathCases(p, q);
    if Under(q, p) {
      AbsentBelow(a, p, q);
      AbsentBelow(b, p, q);
    } else if Diverges(p, q) {
      DivergesSymmetric(p, q);
      if Get(t0, d) == Some(Str(name)) && Under(q, d) {
        AbsentBelow(a, d, q);
        AbsentBelow(b, d, q);
      }
    } else {
      OnPathSame(t0, name, a, b, |q|);
    }
  }

  /** `RemovedFrom` leaves no choice: it describes a single tree. */
  lemma RemovedFromUnique(t0: Tree, name: string, a: Tree, b: Tree)
    requires RemovedFrom(t0, name, a) && RemovedFrom(t0, name, b)
    ensures a == b
  {
    forall q
      ensures (Get(a, q).None? <==> Get(b, q).None?)
      ensures IsLeaf(Get(a, q)) || IsLeaf(Get(b, q)) ==> Get(a, q) == Get(b, q)
    {
      SameAt(t0, name, a, b, q);
    }
    SameTree(a, b);
  }

  /** What `RemoveRuntime` leaves as the default: a string default naming the
      removed runtime is cleared, any other string default is kept. */
  lemma DefaultAfterRemove(t0: Tree, t: Tree, name: string)
    requires Get(t0, DefaultRuntimeKeyPath).Some? && Get(t0, DefaultRuntimeKeyPath).value.Str?
    requires Get(t0, DefaultRuntimeKeyPath) == Some(Str(name)) ==> Get(t, DefaultRuntimeKeyPath) == None
    requires forall q :: IsLeaf(Get(t0, q)) && !Under(q, RuntimeTablePath(name))
                         && !(q == DefaultRuntimeKeyPath && Get(t0, q) == Some(Str(name))) ==>
               Get(t, q) == Get(t0, q)
    ensures var s := Get(t0, DefaultRuntimeKeyPath).value.s;
      DefaultOf(t) == if s == name then "" else s
  {
    var d := DefaultRuntimeKeyPath;
    assert !Under(d, RuntimeTablePath(name));
  }
}
