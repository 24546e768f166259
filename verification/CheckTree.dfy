/** The dependency tree that `tillit check` prints (cmd/tillit/commands/checktree.go). The edge map
    may be cyclic. Rendering stops anyway, every package is printed, and the packages listed as
    not reached are exactly those no direct dependency leads to: the printer cuts a branch at an
    ancestor, while the search for leftovers remembers everything it has visited. */
module CheckTree {
  import opened Order
  import opened Text

  datatype PackageRow = PackageRow(packageID: string, version: string, direct: bool, status: string)

  datatype NodeInfo = NodeInfo(name: string, version: string, status: string, direct: bool)

  type Infos = map<string, NodeInfo>
  type Edges = map<string, seq<string>>

  /** A printed line: the label, version and status of a node after its tree prefix. */
  datatype Line = Node(prefix: string, key: string) | BlankLine | NotReachedHeading

  function Key(r: PackageRow): string {
    r.packageID + "@" + r.version
  }

  function InfoOf(r: PackageRow): NodeInfo {
    NodeInfo(r.packageID, r.version, r.status, r.direct)
  }

  /** `indexRows`: a later row with the same key wins. */
  function IndexRows(rows: seq<PackageRow>): (infos: Infos)
    ensures forall k :: k in infos <==> exists r :: r in rows && Key(r) == k
  {
    if rows == [] then map[]
    else
      var n := |rows| - 1;
      assert rows == rows[..n] + [rows[n]];
      IndexRows(rows[..n])[Key(rows[n]) := InfoOf(rows[n])]
  }

  /** `buildResolvedKeyMap`. */
  function ResolvedKeys(rows: seq<PackageRow>): (resolved: map<string, string>)
    ensures forall id :: id in resolved ==> exists r :: r in rows && Key(r) == resolved[id]
  {
    if rows == [] then map[]
    else
      var n := |rows| - 1;
      assert rows == rows[..n] + [rows[n]];
      ResolvedKeys(rows[..n])[rows[n].packageID := Key(rows[n])]
  }

  function ChildrenOf(edges: Edges, key: string): seq<string> {
    if key in edges then edges[key] else []
  }

  // ---- retargeting edges ----

  /** The known key an endpoint stands for, or the empty string. */
  function Canon(infos: Infos, resolved: map<string, string>, key: string): string {
    if key in infos then key
    else
      var id := Split(key, '@')[0];
      if id in resolved then resolved[id] else ""
  }

  function FromKey(infos: Infos, resolved: map<string, string>, from: string): string {
    var c := Canon(infos, resolved, from);
    if c != "" then c else from
  }

  function KeepTargets(infos: Infos, resolved: map<string, string>, from: string,
                       deps: seq<string>): (keep: seq<string>)
    ensures forall c :: c in keep <==> c != "" && c != from && exists d :: d in deps && Canon(infos, resolved, d) == c
    ensures forall i, j :: 0 <= i < j < |keep| ==> keep[i] != keep[j]
  {
    if deps == [] then []
    else
      var n := |deps| - 1;
      assert deps == deps[..n] + [deps[n]];
      var keep, c := KeepTargets(infos, resolved, from, deps[..n]), Canon(infos, resolved, deps[n]);
      if c == "" || c == from || c in keep then keep else keep + [c]
  }

  /** `out` has the retargeted children of some edge list for `k`. */
  ghost predicate CanonicalEntry(infos: Infos, resolved: map<string, string>, edges: Edges, out: Edges, k: string)
    requires k in out
  {
    exists from ::
      from in edges && FromKey(infos, resolved, from) == k && out[k] == KeepTargets(infos, resolved, k, edges[from])
  }

  /** What `canonicaliseEdges` may return: Go iterates the edge map in any order, and of several
      keys that canonicalise alike the last one wins. */
  ghost predicate Canonical(infos: Infos, resolved: map<string, string>, edges: Edges, out: Edges) {
    && (forall k :: k in out ==> CanonicalEntry(infos, resolved, edges, out, k))
    && (forall from ::
         from in edges && KeepTargets(infos, resolved, FromKey(infos, resolved, from), edges[from]) != [] ==>
          FromKey(infos, resolved, from) in out)
  }

  method CanonicaliseEdges(edges: Edges, infos: Infos, resolved: map<string, string>) returns (out: Edges)
    ensures Canonical(infos, resolved, edges, out)
  {
    out := map[];
    var left := edges.Keys;
    while left != {}
      invariant left <= edges.Keys
      invariant forall k :: k in out ==> CanonicalEntry(infos, resolved, edges, out, k)
      invariant forall from | from in edges && from !in left ::
        KeepTargets(infos, resolved, FromKey(infos, resolved, from), edges[from]) != [] ==>
          FromKey(infos, resolved, from) in out
      decreases left
    {
      var from :| from in left;
      var fromKey := FromKey(infos, resolved, from);
      var keep := Targets(infos, resolved, fromKey, edges[from]);
      if |keep| > 0 {
        EntryAdded(infos, resolved, edges, out, from, keep);
        out := out[fromKey := keep];
      }
      left := left - {from};
    }
  }

  lemma EntryAdded(infos: Infos, resolved: map<string, string>, edges: Edges, out: Edges, from: string,
                   keep: seq<string>)
    requires forall k :: k in out ==> CanonicalEntry(infos, resolved, edges, out, k)
    requires from in edges && keep == KeepTargets(infos, resolved, FromKey(infos, resolved, from), edges[from])
    ensures var out' := out[FromKey(infos, resolved, from) := keep];
      forall k :: k in out' ==> CanonicalEntry(infos, resolved, edges, out', k)
  {
    var out' := out[FromKey(infos, resolved, from) := keep];
    forall k | k in out'
      ensures CanonicalEntry(infos, resolved, edges, out', k)
    {
      if k != FromKey(infos, resolved, from) {
        assert CanonicalEntry(infos, resolved, edges, out, k);
      }
    }
  }

  /** The inner loop of `canonicaliseEdges`. */
  method Targets(infos: Infos, resolved: map<string, string>, from: string, deps: seq<string>)
    returns (keep: seq<string>)
    ensures keep == KeepTargets(infos, resolved, from, deps)
  {
    keep := [];
    var seen: set<string> := {};
    for i := 0 to |deps|
      invariant keep == KeepTargets(infos, resolved, from, deps[..i])
      invariant forall c :: c in seen <==> c in keep
    {
      assert deps[..i + 1][..i] == deps[..i];
      var c := Canon(infos, resolved, deps[i]);
      if c == "" || c == from || c in seen {
        continue;
      }
      seen := seen + {c};
      keep := keep + [c];
    }
    assert deps[..|deps|] == deps;
  }

  /** After retargeting, every child is a known package. */
  ghost predicate KnownChildren(edges: Edges, infos: Infos) {
    forall k, c :: k in edges && c in edges[k] ==> c in infos
  }

  lemma CanonicalChildrenKnown(rows: seq<PackageRow>, edges: Edges, out: Edges)
    requires Canonical(IndexRows(rows), ResolvedKeys(rows), edges, out)
    ensures KnownChildren(out, IndexRows(rows))
    ensures forall k :: k in out ==> k !in out[k]
  {
    forall k | k in out
      ensures k !in out[k] && forall c :: c in out[k] ==> c in IndexRows(rows)
    {
      assert CanonicalEntry(IndexRows(rows), ResolvedKeys(rows), edges, out, k);
    }
  }

  // ---- printing ----

  /** The comparison of `sortedChildren`: labels, then versions; unknown keys as strings. */
  function CompareKeys(infos: Infos, a: string, b: string): int {
    if a in infos && b in infos then
      Then(CompareStrings(infos[a].name, infos[b].name), CompareStrings(infos[a].version, infos[b].version))
    else CompareStrings(a, b)
  }

  function InsertChild(sorted: seq<string>, key: string, infos: Infos): (r: seq<string>)
    ensures forall x :: x in r <==> x in sorted || x == key
  {
    if sorted == [] then [key]
    else
      var n := |sorted| - 1;
      assert sorted == sorted[..n] + [sorted[n]];
      if CompareKeys(infos, key, sorted[n]) < 0 then InsertChild(sorted[..n], key, infos) + [sorted[n]]
      else sorted + [key]
  }

  /** `sortedChildren`, in the order of labels, then versions. */
  function SortedChildren(keys: seq<string>, infos: Infos): (r: seq<string>)
    ensures forall x :: x in r <==> x in keys
  {
    if keys == [] then []
    else
      var n := |keys| - 1;
      assert keys == keys[..n] + [keys[n]];
      InsertChild(SortedChildren(keys[..n], infos), keys[n], infos)
  }

  ghost predicate InOrder(keys: seq<string>, infos: Infos) {
    forall i, j :: 0 <= i < j < |keys| ==> CompareKeys(infos, keys[i], keys[j]) <= 0
  }

  lemma CompareKeysConsistent(infos: Infos, a: string, b: string, c: string)
    requires a in infos && b in infos && c in infos
    ensures CompareKeys(infos, a, b) == -CompareKeys(infos, b, a)
    ensures Consistent(CompareKeys(infos, a, b), CompareKeys(infos, b, c), CompareKeys(infos, a, c))
  {
    StringsConsistent(infos[a].name, infos[b].name, infos[c].name);
    StringsConsistent(infos[a].version, infos[b].version, infos[c].version);
  }

  lemma InsertLastInOrder(sorted: seq<string>, key: string, infos: Infos)
    requires sorted != [] && InOrder(sorted, infos) && key in infos && forall k :: k in sorted ==> k in infos
    requires CompareKeys(infos, key, sorted[|sorted| - 1]) >= 0
    ensures InOrder(sorted + [key], infos)
  {
    var last := sorted[|sorted| - 1];
    forall i | 0 <= i < |sorted|
      ensures CompareKeys(infos, sorted[i], key) <= 0
    {
      assert sorted[i] in sorted && last in sorted;
      CompareKeysConsistent(infos, key, last, key);
      CompareKeysConsistent(infos, sorted[i], last, key);
      assert i < |sorted| - 1 ==> CompareKeys(infos, sorted[i], last) <= 0;
    }
  }

  lemma {:induction false} InsertInOrder(sorted: seq<string>, key: string, infos: Infos)
    requires key in infos && InOrder(sorted, infos) && forall k :: k in sorted ==> k in infos
    ensures InOrder(InsertChild(sorted, key, infos), infos)
  {
    if sorted != [] {
      var front, last := sorted[..|sorted| - 1], sorted[|sorted| - 1];
      assert sorted == front + [last];
      if CompareKeys(infos, key, last) < 0 {
        InsertInOrder(front, key, infos);
        var r := InsertChild(front, key, infos);
        forall i | 0 <= i < |r|
          ensures CompareKeys(infos, r[i], last) <= 0
        {
          assert r[i] in r;
          if r[i] != key {
            var j :| 0 <= j < |front| && front[j] == r[i];
            assert sorted[j] == r[i] && sorted[|front|] == last;
          }
        }
      } else {
        InsertLastInOrder(sorted, key, infos);
      }
    }
  }

  /** Known children come out ordered by label, then by version. */
  lemma {:induction false} ChildrenInOrder(keys: seq<string>, infos: Infos)
    requires forall k :: k in keys ==> k in infos
    ensures InOrder(SortedChildren(keys, infos), infos)
  {
    if keys != [] {
      var n := |keys| - 1;
      assert keys == keys[..n] + [keys[n]];
      ChildrenInOrder(keys[..n], infos);
      InsertInOrder(SortedChildren(keys[..n], infos), keys[n], infos);
    }
  }

  const TEE := "├── "
  const CORNER := "└── "
  const BAR := "│   "
  const GAP := "    "

  /** The lines of one child and its subtree; a node that is its own ancestor is not expanded. */
  function Subtree(key: string, prefix: string, last: bool, edges: Edges, infos: Infos,
                   ancestors: set<string>): seq<Line>
    decreases infos.Keys - ancestors, 1, 0
  {
    if key !in infos then []
    else
      var line := Node(prefix + (if last then CORNER else TEE), key);
      if key in ancestors then [line]
      else
        var children := SortedChildren(ChildrenOf(edges, key), infos);
        assert key in infos.Keys - ancestors;
        [line] + Subtrees(children, 0, prefix + (if last then GAP else BAR), edges, infos, ancestors + {key})
  }

  function Subtrees(children: seq<string>, i: nat, prefix: string, edges: Edges, infos: Infos,
                    ancestors: set<string>): seq<Line>
    requires i <= |children|
    decreases infos.Keys - ancestors, 2, |children| - i
  {
    if i == |children| then []
    else
      Subtree(children[i], prefix, i == |children| - 1, edges, infos, ancestors)
      + Subtrees(children, i + 1, prefix, edges, infos, ancestors)
  }

  function RootTree(key: string, edges: Edges, infos: Infos): seq<Line> {
    [Node("", key)] + Subtrees(SortedChildren(ChildrenOf(edges, key), infos), 0, "", edges, infos, {key})
  }

  function RootTrees(roots: seq<string>, edges: Edges, infos: Infos): seq<Line> {
    if roots == [] then []
    else
      var n := |roots| - 1;
      RootTrees(roots[..n], edges, infos) + ((if n > 0 then [BlankLine] else []) + RootTree(roots[n], edges, infos))
  }

  function Leftovers(roots: seq<string>, leftovers: seq<string>): seq<Line> {
    if leftovers == [] then []
    else (if roots != [] then [BlankLine, NotReachedHeading] else []) + Flat(leftovers)
  }

  function Flat(keys: seq<string>): (lines: seq<Line>)
    ensures forall k :: k in keys ==> Node("", k) in lines
  {
    if keys == [] then []
    else
      var n := |keys| - 1;
      assert keys == keys[..n] + [keys[n]];
      Flat(keys[..n]) + [Node("", keys[n])]
  }

  // ---- what no direct dependency reaches ----

  function Endpoints(edges: Edges): (ends: set<string>)
    ensures forall k, c :: c in ChildrenOf(edges, k) ==> c in ends
  {
    set k, c | k in edges && c in edges[k] :: c
  }

  /** The recursive `walk`: everything visited once `key` and what follows from it is. */
  function Visit(key: string, edges: Edges, reached: set<string>): (r: set<string>)
    ensures reached <= r && key in r
    decreases Endpoints(edges) - reached, if key in Endpoints(edges) then 0 else 2, 0
  {
    if key in reached then reached
    else
      assert key in Endpoints(edges) ==> key in Endpoints(edges) - reached;
      assert key !in Endpoints(edges) ==> Endpoints(edges) - (reached + {key}) == Endpoints(edges) - reached;
      VisitChildren(key, 0, edges, reached + {key})
  }

  function VisitChildren(key: string, i: nat, edges: Edges, reached: set<string>): (r: set<string>)
    requires i <= |ChildrenOf(edges, key)|
    ensures reached <= r && forall j :: i <= j < |ChildrenOf(edges, key)| ==> ChildrenOf(edges, key)[j] in r
    decreases Endpoints(edges) - reached, 1, |ChildrenOf(edges, key)| - i
  {
    if i == |ChildrenOf(edges, key)| then reached
    else
      var child := ChildrenOf(edges, key)[i];
      assert child in Endpoints(edges);
      var reached' := Visit(child, edges, reached);
      assert Endpoints(edges) - reached' <= Endpoints(edges) - reached;
      VisitChildren(key, i + 1, edges, reached')
  }

  function VisitRoots(roots: seq<string>, edges: Edges): (r: set<string>)
    ensures forall k :: k in roots ==> k in r
  {
    if roots == [] then {}
    else
      var n := |roots| - 1;
      assert roots == roots[..n] + [roots[n]];
      Visit(roots[n], edges, VisitRoots(roots[..n], edges))
  }

  function Unvisited(rows: seq<PackageRow>, reached: set<string>): (keys: seq<string>)
    ensures forall k :: k in keys <==> k !in reached && exists r :: r in rows && Key(r) == k
  {
    if rows == [] then []
    else
      var n := |rows| - 1;
      assert rows == rows[..n] + [rows[n]];
      var front := Unvisited(rows[..n], reached);
      if Key(rows[n]) in reached then front else front + [Key(rows[n])]
  }

  function LowerChar(c: char): char {
    if 'A' <= c <= 'Z' then (c as int + 32) as char else c
  }

  function Lower(s: string): string {
    if s == "" then "" else [LowerChar(s[0])] + Lower(s[1..])
  }

  function CompareLower(a: string, b: string): int {
    CompareStrings(Lower(a), Lower(b))
  }

  function DirectKeys(rows: seq<PackageRow>): (keys: seq<string>)
    ensures forall k :: k in keys <==> exists r :: r in rows && r.direct && Key(r) == k
  {
    if rows == [] then []
    else
      var n := |rows| - 1;
      assert rows == rows[..n] + [rows[n]];
      var front := DirectKeys(rows[..n]);
      if rows[n].direct then front + [Key(rows[n])] else front
  }

  /** What `renderTree` may print: sorted lists may order ties either way. */
  ghost predicate Renders(rows: seq<PackageRow>, edges: Edges, roots: seq<string>, leftovers: seq<string>,
                          out: seq<Line>) {
    exists canon ::
      && Canonical(IndexRows(rows), ResolvedKeys(rows), edges, canon)
      && RendersCanonical(rows, canon, roots, leftovers, out)
  }

  ghost predicate RendersCanonical(rows: seq<PackageRow>, canon: Edges, roots: seq<string>, leftovers: seq<string>,
                                   out: seq<Line>) {
    && Sorted(CompareStrings, roots) && multiset(roots) == multiset(DirectKeys(rows))
    && Sorted(CompareLower, leftovers) && multiset(leftovers) == multiset(Unvisited(rows, VisitRoots(roots, canon)))
    && out == RootTrees(roots, canon, IndexRows(rows)) + Leftovers(roots, leftovers)
  }

  /** The writer and the ancestor set the recursion shares. */
  class Renderer {
    var out: seq<Line>
    var ancestors: set<string>
    var reachable: set<string>

    constructor ()
      ensures out == [] && ancestors == {} && reachable == {}
    {
      out, ancestors, reachable := [], {}, {};
    }

    method PrintChild(key: string, prefix: string, last: bool, edges: Edges, infos: Infos)
      modifies this`out, this`ancestors
      ensures ancestors == old(ancestors)
      ensures out == old(out) + Subtree(key, prefix, last, edges, infos, old(ancestors))
      decreases infos.Keys - ancestors, 0
    {
      var branch, nextPrefix := TEE, prefix + BAR;
      if last {
        branch, nextPrefix := CORNER, prefix + GAP;
      }
      if key !in infos {
        assert out + [] == out;
        return;
      }
      out := out + [Node(prefix + branch, key)];
      if key in ancestors {
        return;
      }
      assert key in infos.Keys - ancestors;
      ancestors := ancestors + {key};
      PrintChildren(SortedChildren(ChildrenOf(edges, key), infos), nextPrefix, edges, infos);
      ancestors := ancestors - {key};
      assert ancestors == old(ancestors);
    }

    /** The loop over sorted children, which roots and inner nodes share. */
    method PrintChildren(children: seq<string>, prefix: string, edges: Edges, infos: Infos)
      modifies this`out, this`ancestors
      ensures ancestors == old(ancestors)
      ensures out == old(out) + Subtrees(children, 0, prefix, edges, infos, old(ancestors))
      decreases infos.Keys - ancestors, 1
    {
      ghost var before, all := out, Subtrees(children, 0, prefix, edges, infos, ancestors);
      for i := 0 to |children|
        invariant ancestors == old(ancestors)
        invariant out + Subtrees(children, i, prefix, edges, infos, ancestors) == before + all
      {
        PrintChild(children[i], prefix, i == |children| - 1, edges, infos);
      }
      assert out + [] == out;
    }

    method PrintRoot(key: string, edges: Edges, infos: Infos)
      modifies this`out, this`ancestors
      ensures out == old(out) + RootTree(key, edges, infos)
    {
      out := out + [Node("", key)];
      ancestors := {key};
      PrintChildren(SortedChildren(ChildrenOf(edges, key), infos), "", edges, infos);
    }

    method Walk(key: string, edges: Edges)
      modifies this`reachable
      ensures reachable == Visit(key, edges, old(reachable))
      decreases Endpoints(edges) - reachable, if key in Endpoints(edges) then 0 else 1
    {
      if key in reachable {
        return;
      }
      ghost var before := reachable;
      assert key in Endpoints(edges) ==> key in Endpoints(edges) - reachable;
      reachable := reachable + {key};
      assert key !in Endpoints(edges) ==> Endpoints(edges) - reachable == Endpoints(edges) - before;
      var children := ChildrenOf(edges, key);
      ghost var final := VisitChildren(key, 0, edges, reachable);
      for i := 0 to |children|
        invariant before + {key} <= reachable
        invariant VisitChildren(key, i, edges, reachable) == final
      {
        assert children[i] in Endpoints(edges);
        assert Endpoints(edges) - reachable <= Endpoints(edges) - (before + {key});
        Walk(children[i], edges);
      }
    }

    /** `unvisitedFromDirects`. */
    method UnvisitedFromDirects(rows: seq<PackageRow>, edges: Edges, directs: seq<string>) returns (left: seq<string>)
      modifies this`reachable
      ensures Sorted(CompareLower, left) && multiset(left) == multiset(Unvisited(rows, VisitRoots(directs, edges)))
    {
      reachable := {};
      for i := 0 to |directs|
        invariant reachable == VisitRoots(directs[..i], edges)
      {
        assert directs[..i + 1][..i] == directs[..i];
        Walk(directs[i], edges);
      }
      assert directs[..|directs|] == directs;
      left := [];
      for i := 0 to |rows|
        invariant left == Unvisited(rows[..i], reachable)
      {
        assert rows[..i + 1][..i] == rows[..i];
        if Key(rows[i]) !in reachable {
          left := left + [Key(rows[i])];
        }
      }
      assert rows[..|rows|] == rows;
      CompareLowerLaws();
      left := Sort(CompareLower, left);
    }

    method PrintRoots(directs: seq<string>, edges: Edges, infos: Infos)
      modifies this`out, this`ancestors
      ensures out == old(out) + RootTrees(directs, edges, infos)
    {
      ghost var start := out;
      for i := 0 to |directs|
        invariant out == start + RootTrees(directs[..i], edges, infos)
      {
        ghost var before := RootTrees(directs[..i], edges, infos);
        ghost var gap := if i > 0 then [BlankLine] else [];
        assert directs[..i + 1][..i] == directs[..i];
        if i > 0 {
          out := out + [BlankLine];
        }
        assert out == start + before + gap;
        PrintRoot(directs[i], edges, infos);
        Regroup(start, before, gap, RootTree(directs[i], edges, infos));
      }
      assert directs[..|directs|] == directs;
    }

    method PrintFlat(left: seq<string>)
      modifies this`out
      ensures out == old(out) + Flat(left)
    {
      ghost var start := out;
      for i := 0 to |left|
        invariant out == start + Flat(left[..i])
      {
        assert left[..i + 1][..i] == left[..i];
        Regroup(start, Flat(left[..i]), [Node("", left[i])], []);
        out := out + [Node("", left[i])];
      }
      assert left[..|left|] == left;
    }

    method PrintLeftovers(directs: seq<string>, left: seq<string>)
      modifies this`out
      ensures out == old(out) + Leftovers(directs, left)
    {
      if |left| > 0 {
        if |directs| > 0 {
          out := out + [BlankLine, NotReachedHeading];
        }
        PrintFlat(left);
      }
    }

    /** `renderTree`. */
    method RenderTree(rows: seq<PackageRow>, edges: Edges)
      modifies this
      ensures Appends(rows, edges, old(out), out)
    {
      var infos := IndexRows(rows);
      var canon := CanonicaliseEdges(edges, infos, ResolvedKeys(rows));
      StringsLaws();
      var directs := Sort(CompareStrings, DirectKeys(rows));
      PrintRoots(directs, canon, infos);
      var left := UnvisitedFromDirects(rows, canon, directs);
      PrintLeftovers(directs, left);
      assert RendersCanonical(rows, canon, directs, left, RootTrees(directs, canon, infos) + Leftovers(directs, left));
      AppendsLines(rows, edges, canon, directs, left, RootTrees(directs, canon, infos), Leftovers(directs, left),
        old(out));
    }
  }

  lemma Regroup<T>(a: seq<T>, b: seq<T>, c: seq<T>, d: seq<T>)
    ensures a + b + c + d == a + (b + (c + d))
    ensures a + b + c == a + (b + c)
  {
  }

  /** The output grew by one possible rendering. */
  ghost predicate Appends(rows: seq<PackageRow>, edges: Edges, before: seq<Line>, after: seq<Line>) {
    exists roots, leftovers, lines :: Renders(rows, edges, roots, leftovers, lines) && after == before + lines
  }

  lemma AppendsLines(rows: seq<PackageRow>, edges: Edges, canon: Edges, roots: seq<string>, leftovers: seq<string>,
                     trees: seq<Line>, left: seq<Line>, before: seq<Line>)
    requires Canonical(IndexRows(rows), ResolvedKeys(rows), edges, canon)
    requires RendersCanonical(rows, canon, roots, leftovers, trees + left)
    ensures Appends(rows, edges, before, before + trees + left)
  {
    assert Renders(rows, edges, roots, leftovers, trees + left);
    Regroup(before, trees, left, []);
  }

  lemma CompareLowerLaws()
    ensures Laws(CompareLower)
  {
    forall a: string, b: string, c: string
      ensures CompareLower(a, b) == -CompareLower(b, a)
      ensures CompareLower(a, b) <= 0 && CompareLower(b, c) <= 0 ==> CompareLower(a, c) <= 0
    {
      StringsConsistent(Lower(a), Lower(b), Lower(c));
    }
  }

  // ---- paths ----

  ghost predicate Path(edges: Edges, path: seq<string>) {
    path != [] && forall i :: 0 < i < |path| ==> path[i] in ChildrenOf(edges, path[i - 1])
  }

  ghost predicate Simple(path: seq<string>) {
    forall i, j :: 0 <= i < j < |path| ==> path[i] != path[j]
  }

  ghost predicate Leads(edges: Edges, from: string, to: string) {
    exists path :: Path(edges, path) && path[0] == from && path[|path| - 1] == to
  }

  /** Cutting out loops leaves a path that visits no node twice. */
  lemma {:induction false} SimplePath(edges: Edges, path: seq<string>) returns (simple: seq<string>)
    requires Path(edges, path)
    ensures Path(edges, simple) && Simple(simple)
    ensures simple[0] == path[0] && simple[|simple| - 1] == path[|path| - 1]
    decreases |path|
  {
    if Simple(path) {
      simple := path;
    } else {
      var i, j :| 0 <= i < j < |path| && path[i] == path[j];
      var cut := path[..i] + path[j..];
      forall k | 0 < k < |cut|
        ensures cut[k] in ChildrenOf(edges, cut[k - 1])
      {
        if k == i {
          assert cut[k] == path[i] && cut[k - 1] == path[i - 1];
        } else if k > i {
          assert cut[k] == path[k + j - i] && cut[k - 1] == path[k - 1 + j - i];
        }
      }
      simple := SimplePath(edges, cut);
    }
  }

  // ---- the leftovers are the unreachable packages ----

  /** Everything newly visited has its children visited too. */
  lemma {:induction false} VisitCloses(key: string, edges: Edges, reached: set<string>)
    ensures forall k, c :: k in Visit(key, edges, reached) && k !in reached && c in ChildrenOf(edges, k) ==>
      c in Visit(key, edges, reached)
    decreases Endpoints(edges) - reached, if key in Endpoints(edges) then 0 else 2, 0
  {
    if key !in reached {
      assert key in Endpoints(edges) ==> key in Endpoints(edges) - reached;
      assert key !in Endpoints(edges) ==> Endpoints(edges) - (reached + {key}) == Endpoints(edges) - reached;
      VisitChildrenCloses(key, 0, edges, reached + {key});
      forall c | c in ChildrenOf(edges, key)
        ensures c in Visit(key, edges, reached)
      {
        var j :| 0 <= j < |ChildrenOf(edges, key)| && ChildrenOf(edges, key)[j] == c;
      }
    }
  }

  lemma {:induction false} VisitChildrenCloses(key: string, i: nat, edges: Edges, reached: set<string>)
    requires i <= |ChildrenOf(edges, key)|
    ensures forall k, c :: k in VisitChildren(key, i, edges, reached) && k !in reached && c in ChildrenOf(edges, k) ==>
      c in VisitChildren(key, i, edges, reached)
    decreases Endpoints(edges) - reached, 1, |ChildrenOf(edges, key)| - i
  {
    if i < |ChildrenOf(edges, key)| {
      var child := ChildrenOf(edges, key)[i];
      assert child in Endpoints(edges);
      var reached' := Visit(child, edges, reached);
      assert Endpoints(edges) - reached' <= Endpoints(edges) - reached;
      VisitCloses(child, edges, reached);
      VisitChildrenCloses(key, i + 1, edges, reached');
    }
  }

  /** Everything newly visited is reachable from where the visit started. */
  lemma {:induction false} VisitReachable(key: string, edges: Edges, reached: set<string>, k: string)
    requires k in Visit(key, edges, reached) && k !in reached
    ensures Leads(edges, key, k)
    decreases Endpoints(edges) - reached, if key in Endpoints(edges) then 0 else 2, 0
  {
    assert Path(edges, [key]);
    if k != key {
      assert key in Endpoints(edges) ==> key in Endpoints(edges) - reached;
      assert key !in Endpoints(edges) ==> Endpoints(edges) - (reached + {key}) == Endpoints(edges) - reached;
      VisitChildrenReachable(key, 0, edges, reached + {key}, k);
    } else {
      assert [key][0] == key;
    }
  }

  lemma {:induction false} VisitChildrenReachable(key: string, i: nat, edges: Edges, reached: set<string>, k: string)
    requires i <= |ChildrenOf(edges, key)| && k in VisitChildren(key, i, edges, reached) && k !in reached
    ensures Leads(edges, key, k)
    decreases Endpoints(edges) - reached, 1, |ChildrenOf(edges, key)| - i
  {
    if i < |ChildrenOf(edges, key)| {
      var child := ChildrenOf(edges, key)[i];
      assert child in Endpoints(edges);
      var reached' := Visit(child, edges, reached);
      assert Endpoints(edges) - reached' <= Endpoints(edges) - reached;
      if k in reached' {
        VisitReachable(child, edges, reached, k);
        var path :| Path(edges, path) && path[0] == child && path[|path| - 1] == k;
        var longer := [key] + path;
        assert Path(edges, longer) && longer[|longer| - 1] == k;
      } else {
        VisitChildrenReachable(key, i + 1, edges, reached', k);
      }
    }
  }

  lemma {:induction false} ClosedAlongPath(edges: Edges, reached: set<string>, path: seq<string>)
    requires forall k, c :: k in reached && c in ChildrenOf(edges, k) ==> c in reached
    requires Path(edges, path) && path[0] in reached
    ensures path[|path| - 1] in reached
    decreases |path|
  {
    if |path| > 1 {
      ClosedAlongPath(edges, reached, path[..|path| - 1]);
    }
  }

  lemma {:induction false} VisitRootsClosed(roots: seq<string>, edges: Edges)
    ensures forall k, c :: k in VisitRoots(roots, edges) && c in ChildrenOf(edges, k) ==> c in VisitRoots(roots, edges)
    ensures forall k :: k in VisitRoots(roots, edges) ==> exists r :: r in roots && Leads(edges, r, k)
  {
    if roots != [] {
      var front, last := roots[..|roots| - 1], roots[|roots| - 1];
      assert roots == front + [last];
      VisitRootsClosed(front, edges);
      var before := VisitRoots(front, edges);
      VisitCloses(last, edges, before);
      forall k | k in VisitRoots(roots, edges)
        ensures exists r :: r in roots && Leads(edges, r, k)
      {
        if k in before {
          var r :| r in front && Leads(edges, r, k);
          assert r in roots;
        } else {
          VisitReachable(last, edges, before, k);
          assert last in roots;
        }
      }
    }
  }

  /** The visited-set search finds exactly what paths from the roots lead to. */
  lemma VisitedIffReachable(roots: seq<string>, edges: Edges, k: string)
    ensures k in VisitRoots(roots, edges) <==> exists r :: r in roots && Leads(edges, r, k)
  {
    VisitRootsClosed(roots, edges);
    if r :| r in roots && Leads(edges, r, k) {
      var path :| Path(edges, path) && path[0] == r && path[|path| - 1] == k;
      ClosedAlongPath(edges, VisitRoots(roots, edges), path);
    }
  }

  // ---- every reachable package is printed ----

  ghost predicate Printed(lines: seq<Line>, key: string) {
    exists l :: l in lines && l.Node? && l.key == key
  }

  lemma PrintedConcat(a: seq<Line>, b: seq<Line>, key: string)
    ensures Printed(a + b, key) <==> Printed(a, key) || Printed(b, key)
  {
    assert forall l :: l in a + b <==> l in a || l in b;
  }

  /** A simple path that avoids the ancestors is followed by the ancestor-cut recursion to its end. */
  lemma {:induction false} SubtreePrints(path: seq<string>, prefix: string, last: bool, edges: Edges, infos: Infos,
                                         ancestors: set<string>)
    requires Path(edges, path) && Simple(path)
    requires forall i :: 0 <= i < |path| ==> path[i] in infos && path[i] !in ancestors
    ensures Printed(Subtree(path[0], prefix, last, edges, infos, ancestors), path[|path| - 1])
    decreases |path|, 0
  {
    var key := path[0];
    var line := Node(prefix + (if last then CORNER else TEE), key);
    var children, next := SortedChildren(ChildrenOf(edges, key), infos), prefix + (if last then GAP else BAR);
    var below := Subtrees(children, 0, next, edges, infos, ancestors + {key});
    assert Subtree(key, prefix, last, edges, infos, ancestors) == [line] + below;
    PrintedConcat([line], below, path[|path| - 1]);
    if |path| == 1 {
      assert line in [line];
    } else {
      SubtreesPrint(path[1..], children, 0, next, edges, infos, ancestors + {key});
    }
  }

  lemma {:induction false} SubtreesPrint(path: seq<string>, children: seq<string>, i: nat, prefix: string,
                                         edges: Edges, infos: Infos, ancestors: set<string>)
    requires Path(edges, path) && Simple(path) && i <= |children| && path[0] in children[i..]
    requires forall j :: 0 <= j < |path| ==> path[j] in infos && path[j] !in ancestors
    ensures Printed(Subtrees(children, i, prefix, edges, infos, ancestors), path[|path| - 1])
    decreases |path|, 1, |children| - i
  {
    var here := Subtree(children[i], prefix, i == |children| - 1, edges, infos, ancestors);
    var rest := Subtrees(children, i + 1, prefix, edges, infos, ancestors);
    PrintedConcat(here, rest, path[|path| - 1]);
    if children[i] == path[0] {
      SubtreePrints(path, prefix, i == |children| - 1, edges, infos, ancestors);
    } else {
      SubtreesPrint(path, children, i + 1, prefix, edges, infos, ancestors);
    }
  }

  lemma PathKnown(edges: Edges, infos: Infos, path: seq<string>)
    requires KnownChildren(edges, infos) && Path(edges, path) && path[0] in infos
    ensures forall i :: 0 <= i < |path| ==> path[i] in infos
  {
    forall i | 0 < i < |path|
      ensures path[i] in infos
    {
      assert path[i] in ChildrenOf(edges, path[i - 1]);
    }
  }

  lemma RootTreePrints(root: string, edges: Edges, infos: Infos, key: string)
    requires KnownChildren(edges, infos) && root in infos && Leads(edges, root, key)
    ensures Printed(RootTree(root, edges, infos), key)
  {
    var any :| Path(edges, any) && any[0] == root && any[|any| - 1] == key;
    var path := SimplePath(edges, any);
    PathKnown(edges, infos, path);
    var children := SortedChildren(ChildrenOf(edges, root), infos);
    var below := Subtrees(children, 0, "", edges, infos, {root});
    PrintedConcat([Node("", root)], below, key);
    if |path| == 1 {
      assert Node("", root) in [Node("", root)];
    } else {
      assert path[1] in ChildrenOf(edges, root) && children[0..] == children;
      SubtreesPrint(path[1..], children, 0, "", edges, infos, {root});
    }
  }

  lemma {:induction false} RootTreesPrint(roots: seq<string>, root: string, edges: Edges, infos: Infos, key: string)
    requires KnownChildren(edges, infos) && root in infos && Leads(edges, root, key) && root in roots
    ensures Printed(RootTrees(roots, edges, infos), key)
  {
    var front, last := roots[..|roots| - 1], roots[|roots| - 1];
    assert roots == front + [last];
    var gap := if |front| > 0 then [BlankLine] else [];
    PrintedConcat(gap, RootTree(last, edges, infos), key);
    PrintedConcat(RootTrees(front, edges, infos), gap + RootTree(last, edges, infos), key);
    if root == last {
      RootTreePrints(root, edges, infos, key);
    } else {
      RootTreesPrint(front, root, edges, infos, key);
    }
  }

  lemma LeftoversPrinted(roots: seq<string>, leftovers: seq<string>, key: string)
    requires key in leftovers
    ensures Printed(Leftovers(roots, leftovers), key)
  {
    assert Node("", key) in Flat(leftovers);
    PrintedConcat(if roots != [] then [BlankLine, NotReachedHeading] else [], Flat(leftovers), key);
  }

  /** The leftovers listed are exactly the packages no direct dependency leads to. */
  lemma LeftoversAreUnreachable(rows: seq<PackageRow>, canon: Edges, roots: seq<string>, leftovers: seq<string>,
                                out: seq<Line>, r: PackageRow)
    requires RendersCanonical(rows, canon, roots, leftovers, out) && r in rows
    ensures Key(r) in leftovers <==> !exists d :: d in rows && d.direct && Leads(canon, Key(d), Key(r))
  {
    SameMembers(leftovers, Unvisited(rows, VisitRoots(roots, canon)));
    SameMembers(roots, DirectKeys(rows));
    VisitedIffReachable(roots, canon, Key(r));
    if d :| d in rows && d.direct && Leads(canon, Key(d), Key(r)) {
      assert Key(d) in DirectKeys(rows);
    }
  }

  /** No package is silently dropped, whatever cycles the edges have. */
  lemma EveryRowPrinted(rows: seq<PackageRow>, edges: Edges, roots: seq<string>, leftovers: seq<string>,
                        out: seq<Line>, r: PackageRow)
    requires Renders(rows, edges, roots, leftovers, out) && r in rows
    ensures Printed(out, Key(r))
  {
    var infos := IndexRows(rows);
    var canon :| Canonical(infos, ResolvedKeys(rows), edges, canon)
      && RendersCanonical(rows, canon, roots, leftovers, out);
    CanonicalChildrenKnown(rows, edges, canon);
    LeftoversAreUnreachable(rows, canon, roots, leftovers, out, r);
    PrintedConcat(RootTrees(roots, canon, infos), Leftovers(roots, leftovers), Key(r));
    if Key(r) in leftovers {
      LeftoversPrinted(roots, leftovers, Key(r));
    } else {
      var d :| d in rows && d.direct && Leads(canon, Key(d), Key(r));
      SameMembers(roots, DirectKeys(rows));
      assert Key(d) in DirectKeys(rows);
      RootTreesPrint(roots, Key(d), canon, infos, Key(r));
    }
  }
}
