/** What `tillit check` prints, in terms of its rows: which row an edge is retargeted to, in which
    order children come, and how their lines are drawn. */
module CheckTreeShape {
  import opened Order
  import opened Text
  import opened CheckTree

  // ---- rows behind keys ----

  /** The last row with this key. */
  predicate LastOfKey(rows: seq<PackageRow>, i: nat, key: string) {
    && i < |rows| && rows[i].packageID + "@" + rows[i].version == key
    && forall j :: i < j < |rows| ==> rows[j].packageID + "@" + rows[j].version != key
  }

  /** The last row of this package. */
  predicate LastOfPackage(rows: seq<PackageRow>, i: nat, id: string) {
    i < |rows| && rows[i].packageID == id && forall j :: i < j < |rows| ==> rows[j].packageID != id
  }

  /** A key is printed with the package, version and status of the last row that has it. */
  lemma {:induction false} IndexMeans(rows: seq<PackageRow>, key: string) returns (i: nat)
    requires exists r :: r in rows && r.packageID + "@" + r.version == key
    ensures LastOfKey(rows, i, key) && key in IndexRows(rows)
    ensures var info := IndexRows(rows)[key];
      info.name == rows[i].packageID && info.version == rows[i].version && info.status == rows[i].status
  {
    var n := |rows| - 1;
    assert rows == rows[..n] + [rows[n]];
    if Key(rows[n]) == key {
      i := n;
    } else {
      i := IndexMeans(rows[..n], key);
    }
  }

  lemma {:induction false} ResolvedMeans(rows: seq<PackageRow>, id: string) returns (i: nat)
    requires exists r :: r in rows && r.packageID == id
    ensures LastOfPackage(rows, i, id)
    ensures id in ResolvedKeys(rows) && ResolvedKeys(rows)[id] == id + "@" + rows[i].version
  {
    var n := |rows| - 1;
    assert rows == rows[..n] + [rows[n]];
    if rows[n].packageID == id {
      i := n;
    } else {
      i := ResolvedMeans(rows[..n], id);
    }
  }

  lemma {:induction false} ResolvedOnly(rows: seq<PackageRow>, id: string)
    requires id in ResolvedKeys(rows)
    ensures exists r :: r in rows && r.packageID == id
  {
    var n := |rows| - 1;
    assert rows == rows[..n] + [rows[n]];
    if rows[n].packageID != id {
      ResolvedOnly(rows[..n], id);
    } else {
      assert rows[n] in rows;
    }
  }

  /** Where an edge to a package leads: to the very version named, if there is a row of it; else to the
      version the project uses, which is that of the last row of the package; else nowhere. */
  lemma RetargetMeans(rows: seq<PackageRow>, id: string, named: string)
    requires '@' !in id
    ensures var to := Canon(IndexRows(rows), ResolvedKeys(rows), id + "@" + named);
      if exists r :: r in rows && r.packageID + "@" + r.version == id + "@" + named then to == id + "@" + named
      else if exists r :: r in rows && r.packageID == id then
        exists i: nat :: LastOfPackage(rows, i, id) && to == id + "@" + rows[i].version
      else to == ""
  {
    var key := id + "@" + named;
    PackageOf(id, named);
    if exists r :: r in rows && Key(r) == key {
    } else if exists r :: r in rows && r.packageID == id {
      var i := ResolvedMeans(rows, id);
      assert Canon(IndexRows(rows), ResolvedKeys(rows), key) == id + "@" + rows[i].version;
    } else if id in ResolvedKeys(rows) {
      ResolvedOnly(rows, id);
    }
  }

  lemma PackageOf(id: string, named: string)
    requires '@' !in id
    ensures Split(id + "@" + named, '@')[0] == id
  {
    var rest := ['@'] + named;
    assert rest[1..] == named && id + "@" + named == id + rest;
    SplitPrefix(id, rest, '@');
  }

  // ---- the order of children ----

  /** By package, then by version. */
  ghost predicate NoLater(a: NodeInfo, b: NodeInfo) {
    || StringPrecedes(a.name, b.name)
    || (a.name == b.name && (a.version == b.version || StringPrecedes(a.version, b.version)))
  }

  lemma {:induction false} InsertedBag(sorted: seq<string>, key: string, infos: Infos)
    ensures multiset(InsertChild(sorted, key, infos)) == multiset(sorted) + multiset{key}
  {
    if sorted != [] {
      var n := |sorted| - 1;
      assert sorted == sorted[..n] + [sorted[n]];
      InsertedBag(sorted[..n], key, infos);
    }
  }

  lemma {:induction false} SortedBag(keys: seq<string>, infos: Infos)
    ensures multiset(SortedChildren(keys, infos)) == multiset(keys)
  {
    if keys != [] {
      var n := |keys| - 1;
      assert keys == keys[..n] + [keys[n]];
      SortedBag(keys[..n], infos);
      InsertedBag(SortedChildren(keys[..n], infos), keys[n], infos);
    }
  }

  /** The children printed are the children given, ordered by package and then by version, each as
      strings are ordered. */
  lemma ChildrenPrintedInOrder(keys: seq<string>, infos: Infos)
    requires forall k :: k in keys ==> k in infos
    ensures var sorted := SortedChildren(keys, infos);
      && multiset(sorted) == multiset(keys)
      && (forall k :: k in sorted ==> k in infos)
      && forall i, j :: 0 <= i < j < |sorted| ==> NoLater(infos[sorted[i]], infos[sorted[j]])
  {
    var sorted := SortedChildren(keys, infos);
    SortedBag(keys, infos);
    ChildrenInOrder(keys, infos);
    forall i, j | 0 <= i < j < |sorted|
      ensures NoLater(infos[sorted[i]], infos[sorted[j]])
    {
      var a, b := infos[sorted[i]], infos[sorted[j]];
      assert sorted[i] in sorted && sorted[j] in sorted && CompareKeys(infos, sorted[i], sorted[j]) <= 0;
      StringOrder(a.name, b.name);
      StringOrder(a.version, b.version);
      StringsConsistent(a.name, b.name, a.name);
      StringsConsistent(a.version, b.version, a.version);
    }
  }

  // ---- how lines are drawn ----

  ghost predicate StartsWith(s: string, prefix: string) {
    |prefix| <= |s| && s[..|prefix|] == prefix
  }

  ghost predicate Under(lines: seq<Line>, prefix: string) {
    forall l :: l in lines ==> l.Node? && StartsWith(l.prefix, prefix)
  }

  lemma LongerStarts(s: string, prefix: string, more: string)
    requires StartsWith(s, prefix + more)
    ensures StartsWith(s, prefix)
  {
    assert s[..|prefix|] == s[..|prefix + more|][..|prefix|];
  }

  /** The line of a known child closes its list with a corner or continues it with a tee; the lines
      below it are indented under a gap or a bar; below a node that is its own ancestor there are none. */
  lemma {:induction false} SubtreeShape(key: string, prefix: string, last: bool, edges: Edges, infos: Infos,
                                        ancestors: set<string>)
    requires key in infos
    ensures var lines := Subtree(key, prefix, last, edges, infos, ancestors);
      && lines != [] && lines[0] == Node(prefix + (if last then "└── " else "├── "), key)
      && Under(lines[1..], prefix + (if last then "    " else "│   "))
      && Under(lines, prefix)
      && (key in ancestors ==> |lines| == 1)
    decreases infos.Keys - ancestors, 1, 0
  {
    var lines := Subtree(key, prefix, last, edges, infos, ancestors);
    var branch, next := if last then CORNER else TEE, if last then GAP else BAR;
    assert StartsWith(prefix + branch, prefix);
    if key !in ancestors {
      var children := SortedChildren(ChildrenOf(edges, key), infos);
      assert key in infos.Keys - ancestors;
      SubtreesShape(children, 0, prefix + next, edges, infos, ancestors + {key});
      var below := Subtrees(children, 0, prefix + next, edges, infos, ancestors + {key});
      assert lines == [Node(prefix + branch, key)] + below && lines[1..] == below;
      forall l | l in below
        ensures StartsWith(l.prefix, prefix)
      {
        LongerStarts(l.prefix, prefix, next);
      }
    }
  }

  lemma {:induction false} SubtreesShape(children: seq<string>, i: nat, prefix: string, edges: Edges, infos: Infos,
                                         ancestors: set<string>)
    requires i <= |children|
    ensures Under(Subtrees(children, i, prefix, edges, infos, ancestors), prefix)
    decreases infos.Keys - ancestors, 2, |children| - i
  {
    if i < |children| {
      if children[i] in infos {
        SubtreeShape(children[i], prefix, i == |children| - 1, edges, infos, ancestors);
      }
      SubtreesShape(children, i + 1, prefix, edges, infos, ancestors);
    }
  }

  // ---- nothing else is printed ----

  lemma {:induction false} SubtreeKnown(key: string, prefix: string, last: bool, edges: Edges, infos: Infos,
                                        ancestors: set<string>, line: Line)
    requires line in Subtree(key, prefix, last, edges, infos, ancestors)
    ensures line.Node? && line.key in infos
    decreases infos.Keys - ancestors, 1, 0
  {
    if key in infos && key !in ancestors && line != Node(prefix + (if last then CORNER else TEE), key) {
      assert key in infos.Keys - ancestors;
      SubtreesKnown(SortedChildren(ChildrenOf(edges, key), infos), 0, prefix + (if last then GAP else BAR), edges,
        infos, ancestors + {key}, line);
    }
  }

  lemma {:induction false} SubtreesKnown(children: seq<string>, i: nat, prefix: string, edges: Edges, infos: Infos,
                                         ancestors: set<string>, line: Line)
    requires i <= |children| && line in Subtrees(children, i, prefix, edges, infos, ancestors)
    ensures line.Node? && line.key in infos
    decreases infos.Keys - ancestors, 2, |children| - i
  {
    if line in Subtree(children[i], prefix, i == |children| - 1, edges, infos, ancestors) {
      SubtreeKnown(children[i], prefix, i == |children| - 1, edges, infos, ancestors, line);
    } else {
      SubtreesKnown(children, i + 1, prefix, edges, infos, ancestors, line);
    }
  }

  lemma {:induction false} RootTreesKnown(roots: seq<string>, edges: Edges, infos: Infos, line: Line)
    requires line in RootTrees(roots, edges, infos) && line.Node? && forall k :: k in roots ==> k in infos
    ensures line.key in infos
  {
    var front, last := roots[..|roots| - 1], roots[|roots| - 1];
    assert roots == front + [last];
    if line in RootTrees(front, edges, infos) {
      RootTreesKnown(front, edges, infos, line);
    } else if line != Node("", last) {
      SubtreesKnown(SortedChildren(ChildrenOf(edges, last), infos), 0, "", edges, infos, {last}, line);
    } else {
      assert last in roots;
    }
  }

  lemma {:induction false} FlatKeys(keys: seq<string>, line: Line)
    requires line in Flat(keys)
    ensures line.Node? && line.key in keys
  {
    var n := |keys| - 1;
    assert keys == keys[..n] + [keys[n]];
    if line in Flat(keys[..n]) {
      FlatKeys(keys[..n], line);
    }
  }

  /** Only rows are printed: every node line is that of a row. */
  lemma OnlyRowsPrinted(rows: seq<PackageRow>, edges: Edges, roots: seq<string>, leftovers: seq<string>,
                        out: seq<Line>, line: Line)
    requires Renders(rows, edges, roots, leftovers, out) && line in out && line.Node?
    ensures exists r :: r in rows && r.packageID + "@" + r.version == line.key
  {
    var infos := IndexRows(rows);
    var canon :| Canonical(infos, ResolvedKeys(rows), edges, canon)
      && RendersCanonical(rows, canon, roots, leftovers, out);
    SameMembers(roots, DirectKeys(rows));
    SameMembers(leftovers, Unvisited(rows, VisitRoots(roots, canon)));
    if line in RootTrees(roots, canon, infos) {
      RootTreesKnown(roots, canon, infos, line);
    } else {
      FlatKeys(leftovers, line);
    }
  }
}
