/** Path-by-path comparison of two workspace snapshots. Paths are their UTF-8 bytes. */
module WorkspaceDrift {

  import opened TextOrder

  type Path = seq<int>

  datatype Kind = File | Symlink

  /** What identifies one path's content: type, ownership, mode and bytes or target. */
  datatype Content = Content(kind: Kind, identity: string)

  datatype Entry = Entry(path: Path, content: Content)

  type Tree = map<Path, Content>

  datatype Reason = Added | Modified | Deleted

  datatype Change = Change(path: Path, reason: Reason)

  /** A snapshot as a map: where a path is listed twice, the later entry counts. */
  function TreeOf(entries: seq<Entry>): Tree
  {
    if entries == [] then map[]
    else
      var last := entries[|entries| - 1];
      TreeOf(entries[..|entries| - 1])[last.path := last.content]
  }

  method ReadTree(entries: seq<Entry>) returns (tree: Tree)
    ensures tree == TreeOf(entries)
  {
    tree := map[];
    for n := 0 to |entries|
      invariant tree == TreeOf(entries[..n])
    {
      assert entries[..n + 1][..n] == entries[..n];
      tree := tree[entries[n].path := entries[n].content];
    }
    assert entries[..|entries|] == entries;
  }

  // ---- what a comparison should say ----

  /** How a path differs between two trees, if it does. */
  ghost predicate Differs(before: Tree, after: Tree, p: Path, reason: Reason)
  {
    match reason
    case Added => p !in before && p in after
    case Deleted => p in before && p !in after
    case Modified => p in before && p in after && before[p] != after[p]
  }

  ghost predicate Ordered(paths: seq<Path>)
  {
    forall i, j :: 0 <= i < j < |paths| ==> Less(paths[i], paths[j])
  }

  function PathsOf(changes: seq<Change>): (paths: seq<Path>)
    ensures |paths| == |changes| && forall i :: 0 <= i < |changes| ==> paths[i] == changes[i].path
  {
    seq(|changes|, i requires 0 <= i < |changes| => changes[i].path)
  }

  /** Exactly the differing paths, each with its reason, in path order. */
  ghost predicate IsDiff(before: Tree, after: Tree, changes: seq<Change>)
  {
    && Ordered(PathsOf(changes))
    && forall c :: c in changes <==> Differs(before, after, c.path, c.reason)
  }

  // ---- the comparison ----

  function InsertPath(p: Path, paths: seq<Path>): seq<Path>
  {
    if paths == [] || Less(p, paths[0]) then [p] + paths
    else if p == paths[0] then paths
    else [paths[0]] + InsertPath(p, paths[1..])
  }

  lemma {:induction false} InsertPathKeepsOrder(p: Path, paths: seq<Path>)
    requires Ordered(paths)
    ensures Ordered(InsertPath(p, paths))
    ensures forall q :: q in InsertPath(p, paths) <==> q == p || q in paths
  {
    hide Less;
    if paths == [] {
    } else if Less(p, paths[0]) {
      forall i | 1 <= i < |paths| ensures Less(p, paths[i]) { Transitive(p, paths[0], paths[i]); }
    } else if p != paths[0] {
      Total(p, paths[0]);
      var rest := InsertPath(p, paths[1..]);
      InsertPathKeepsOrder(p, paths[1..]);
      forall i | 0 <= i < |rest| ensures Less(paths[0], rest[i]) {
        assert rest[i] in rest;
        if rest[i] != p {
          var k :| 0 <= k < |paths[1..]| && paths[1..][k] == rest[i];
          assert paths[k + 1] == rest[i];
        }
      }
      assert paths == [paths[0]] + paths[1..];
    }
  }

  method SortedPaths(before: Tree, after: Tree) returns (paths: seq<Path>)
    ensures Ordered(paths) && forall p :: p in paths <==> p in before || p in after
  {
    var rest := before.Keys + after.Keys;
    paths := [];
    while rest != {}
      invariant Ordered(paths)
      invariant forall p :: p in paths || p in rest <==> p in before || p in after
      decreases rest
    {
      var p :| p in rest;
      InsertPathKeepsOrder(p, paths);
      paths := InsertPath(p, paths);
      rest := rest - {p};
    }
  }

  method DiffWorkspaceSnapshots(baseline: seq<Entry>, current: seq<Entry>) returns (changes: seq<Change>)
    ensures IsDiff(TreeOf(baseline), TreeOf(current), changes)
  {
    var before := ReadTree(baseline);
    var after := ReadTree(current);
    var paths := SortedPaths(before, after);
    changes := [];
    for n := 0 to |paths|
      invariant Covers(before, after, paths[..n], changes)
      invariant Ordered(PathsOf(changes))
    {
      var p := paths[n];
      ghost var was := changes;
      if p !in before {
        changes := changes + [Change(p, Added)];
      } else if p !in after {
        changes := changes + [Change(p, Deleted)];
      } else if before[p].kind != after[p].kind || before[p].identity != after[p].identity {
        changes := changes + [Change(p, Modified)];
      }
      CoversOneMore(before, after, paths, n, was, changes);
    }
    assert paths[..|paths|] == paths;
  }

  ghost predicate Covers(before: Tree, after: Tree, seen: seq<Path>, changes: seq<Change>)
  {
    forall c :: c in changes <==> c.path in seen && Differs(before, after, c.path, c.reason)
  }

  lemma CoversOneMore(before: Tree, after: Tree, paths: seq<Path>, n: nat, was: seq<Change>, now: seq<Change>)
    requires n < |paths| && Ordered(paths)
    requires Covers(before, after, paths[..n], was) && Ordered(PathsOf(was))
    requires var p := paths[n];
             (now == was && !Differs(before, after, p, Added) && !Differs(before, after, p, Deleted)
              && !Differs(before, after, p, Modified))
             || (exists r :: now == was + [Change(p, r)] && Differs(before, after, p, r))
    ensures Covers(before, after, paths[..n + 1], now) && Ordered(PathsOf(now))
  {
    hide Less;
    var p := paths[n];
    assert paths[..n + 1] == paths[..n] + [p];
    if now == was {
      forall r ensures !Differs(before, after, p, r) { match r case Added => case Deleted => case Modified => }
    } else {
      var r :| now == was + [Change(p, r)] && Differs(before, after, p, r);
      forall q | Differs(before, after, p, q) ensures q == r {}
      forall i | 0 <= i < |was| ensures Less(was[i].path, p) {
        assert was[i] in was;
        var k :| 0 <= k < n && paths[..n][k] == was[i].path;
      }
      hide Differs;
    }
  }

  // ---- what that means ----

  /** The result is a function of the two trees: two correct comparisons are the same list. */
  lemma DiffIsUnique(before: Tree, after: Tree, a: seq<Change>, b: seq<Change>)
    requires IsDiff(before, after, a) && IsDiff(before, after, b)
    ensures a == b
  {
    hide Differs;
    SameOrderedChanges(a, b);
  }

  lemma {:induction false} SameOrderedChanges(a: seq<Change>, b: seq<Change>)
    requires Ordered(PathsOf(a)) && Ordered(PathsOf(b))
    requires forall c :: c in a <==> c in b
    ensures a == b
  {
    hide Less;
    EmptyTogether(a, b);
    if a != [] {
      assert a[0] in b && b[0] in a;
      FirstIsFirst(a, b);
      forall c ensures c in a[1..] <==> c in b[1..] {
        AfterFirst(a, c);
        AfterFirst(b, c);
      }
      assert PathsOf(a[1..]) == PathsOf(a)[1..] && PathsOf(b[1..]) == PathsOf(b)[1..];
      SameOrderedChanges(a[1..], b[1..]);
    }
  }

  lemma EmptyTogether(a: seq<Change>, b: seq<Change>)
    requires forall c :: c in a <==> c in b
    ensures a == [] <==> b == []
  {
    if |a| > 0 { assert a[0] in a; }
    if |b| > 0 { assert b[0] in b; }
  }

  lemma FirstIsFirst(a: seq<Change>, b: seq<Change>)
    requires a != [] && b != [] && Ordered(PathsOf(a)) && Ordered(PathsOf(b))
    requires a[0] in b && b[0] in a
    ensures a[0] == b[0]
  {
    hide Less;
    if a[0] != b[0] {
      var i :| 0 <= i < |b| && b[i] == a[0];
      var j :| 0 <= j < |a| && a[j] == b[0];
      assert Less(PathsOf(b)[0], PathsOf(b)[i]) && Less(PathsOf(a)[0], PathsOf(a)[j]);
      Transitive(a[0].path, b[0].path, a[0].path);
      Irreflexive(a[0].path);
    }
  }

  lemma AfterFirst(a: seq<Change>, c: Change)
    requires a != [] && Ordered(PathsOf(a))
    ensures c in a[1..] <==> c in a && c != a[0]
  {
    hide Less;
    assert a == [a[0]] + a[1..];
    if c in a[1..] {
      var i :| 0 <= i < |a[1..]| && a[1..][i] == c;
      assert Less(PathsOf(a)[0], PathsOf(a)[i + 1]);
      Irreflexive(c.path);
    }
  }

  /** No change is reported exactly when the trees are equal. */
  lemma CleanIsEqual(before: Tree, after: Tree, changes: seq<Change>)
    requires IsDiff(before, after, changes)
    ensures changes == [] <==> before == after
  {
    if changes == [] {
      forall p ensures (p in before <==> p in after) && (p in before && p in after ==> before[p] == after[p]) {
        assert Change(p, Added) !in changes && Change(p, Deleted) !in changes && Change(p, Modified) !in changes;
      }
      assert before.Keys == after.Keys;
    } else {
      assert changes[0] in changes;
    }
  }

  function Mirrored(r: Reason): Reason
  {
    match r
    case Added => Deleted
    case Deleted => Added
    case Modified => Modified
  }

  function MirroredAll(changes: seq<Change>): (m: seq<Change>)
    ensures |m| == |changes|
    ensures forall i :: 0 <= i < |m| ==> m[i] == Change(changes[i].path, Mirrored(changes[i].reason))
  {
    seq(|changes|, i requires 0 <= i < |changes| => Change(changes[i].path, Mirrored(changes[i].reason)))
  }

  /** Comparing the other way round reports the same paths, with additions and deletions swapped. */
  lemma DiffMirrors(before: Tree, after: Tree, changes: seq<Change>)
    requires IsDiff(before, after, changes)
    ensures IsDiff(after, before, MirroredAll(changes))
  {
    var m := MirroredAll(changes);
    assert PathsOf(m) == PathsOf(changes);
    forall c ensures c in m <==> Differs(after, before, c.path, c.reason) {
      hide IsDiff, MirroredAll;
      MirroredIn(changes, c);
      var d := Change(c.path, Mirrored(c.reason));
      assert d in changes <==> Differs(before, after, d.path, d.reason) by { ListedDiffers(before, after, changes, d); }
      DiffersMirrored(before, after, c.path, c.reason);
    }
  }

  lemma ListedDiffers(before: Tree, after: Tree, changes: seq<Change>, d: Change)
    requires IsDiff(before, after, changes)
    ensures d in changes <==> Differs(before, after, d.path, d.reason)
  {
  }

  lemma DiffersMirrored(before: Tree, after: Tree, path: Path, reason: Reason)
    ensures Differs(after, before, path, reason) <==> Differs(before, after, path, Mirrored(reason))
  {
  }

  lemma MirroredIn(changes: seq<Change>, c: Change)
    ensures c in MirroredAll(changes) <==> Change(c.path, Mirrored(c.reason)) in changes
  {
    var m, d := MirroredAll(changes), Change(c.path, Mirrored(c.reason));
    if d in changes {
      var i :| 0 <= i < |changes| && changes[i] == d;
      assert m[i] == c;
    }
    if c in m {
      var i :| 0 <= i < |m| && m[i] == c;
      assert changes[i] == d;
    }
  }

  /** Taking over the listed paths, and no others, turns the one tree into the other. */
  lemma ChangesSuffice(before: Tree, after: Tree, changes: seq<Change>)
    requires IsDiff(before, after, changes)
    ensures after ==
            (map p | p in before.Keys + after.Keys && p in (if p in PathsOf(changes) then after else before) ::
                     if p in PathsOf(changes) then after[p] else before[p])
  {
    forall p ensures p in PathsOf(changes) <==> Differs(before, after, p, Added) || Differs(before, after, p, Deleted)
                                                || Differs(before, after, p, Modified) {
      if p in PathsOf(changes) {
        var i :| 0 <= i < |changes| && PathsOf(changes)[i] == p;
        assert changes[i] in changes;
      }
      forall r | Differs(before, after, p, r) ensures p in PathsOf(changes) {
        var i :| 0 <= i < |changes| && changes[i] == Change(p, r);
        assert PathsOf(changes)[i] == p;
      }
    }
  }
}
