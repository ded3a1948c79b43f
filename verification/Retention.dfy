/** Which of a Room's retained runs survive a prune under its two budgets. */
module Retention {

  datatype Run = Run(id: int, finishedAt: int, bytes: nat)

  /** The pins as this pass sees them; a check that throws counts as a pin. */
  datatype Policy = Policy(maxRuns: nat, maxBytes: nat, pinned: set<int>)

  // ---- newest first, the just-finished run in front ----

  predicate Ahead(a: Run, b: Run, protectedRun: int)
  {
    a.id == protectedRun || (b.id != protectedRun && a.finishedAt >= b.finishedAt)
  }

  function Insert(r: Run, runs: seq<Run>, protectedRun: int): seq<Run>
  {
    if runs == [] || Ahead(r, runs[0], protectedRun) then [r] + runs
    else [runs[0]] + Insert(r, runs[1..], protectedRun)
  }

  function NewestFirst(runs: seq<Run>, protectedRun: int): seq<Run>
  {
    if runs == [] then [] else Insert(runs[0], NewestFirst(runs[1..], protectedRun), protectedRun)
  }

  lemma {:induction false} InsertKeeps(r: Run, runs: seq<Run>, protectedRun: int)
    ensures multiset(Insert(r, runs, protectedRun)) == multiset{r} + multiset(runs)
  {
    if runs != [] && !Ahead(r, runs[0], protectedRun) {
      InsertKeeps(r, runs[1..], protectedRun);
      assert runs == [runs[0]] + runs[1..];
    }
  }

  ghost predicate Ordered(runs: seq<Run>, protectedRun: int)
  {
    forall i, j :: 0 <= i < j < |runs| ==> Ahead(runs[i], runs[j], protectedRun)
  }

  lemma {:induction false} InsertOrders(r: Run, runs: seq<Run>, protectedRun: int)
    requires Ordered(runs, protectedRun)
    ensures Ordered(Insert(r, runs, protectedRun), protectedRun)
  {
    if runs != [] && !Ahead(r, runs[0], protectedRun) {
      InsertOrders(r, runs[1..], protectedRun);
      InsertKeeps(r, runs[1..], protectedRun);
      var rest := Insert(r, runs[1..], protectedRun);
      forall j | 0 <= j < |rest| ensures Ahead(runs[0], rest[j], protectedRun) {
        assert rest[j] in multiset(rest);
      }
    }
  }

  /** Sorting loses nothing, orders by age, and puts the protected run first. */
  lemma {:induction false} NewestFirstSorts(runs: seq<Run>, protectedRun: int)
    ensures var s := NewestFirst(runs, protectedRun);
            && multiset(s) == multiset(runs) && Ordered(s, protectedRun)
            && ((exists r :: r in runs && r.id == protectedRun) ==> s != [] && s[0].id == protectedRun)
  {
    if runs != [] {
      NewestFirstSorts(runs[1..], protectedRun);
      InsertKeeps(runs[0], NewestFirst(runs[1..], protectedRun), protectedRun);
      InsertOrders(runs[0], NewestFirst(runs[1..], protectedRun), protectedRun);
      assert runs == [runs[0]] + runs[1..];
    }
    var s := NewestFirst(runs, protectedRun);
    if r :| r in runs && r.id == protectedRun {
      assert r in multiset(runs);
      var k :| 0 <= k < |s| && s[k] == r;
      assert k > 0 ==> Ahead(s[0], s[k], protectedRun);
    }
  }

  // ---- the pass ----

  datatype Tally = Tally(kept: nat, bytes: nat, pruningSuffix: bool)

  predicate Survives(p: Policy, r: Run, first: bool, t: Tally)
  {
    r.id in p.pinned || first || (!t.pruningSuffix && t.kept < p.maxRuns && t.bytes + r.bytes <= p.maxBytes)
  }

  function Next(p: Policy, r: Run, first: bool, t: Tally): Tally
  {
    if r.id in p.pinned then Tally(t.kept + 1, t.bytes + r.bytes, t.pruningSuffix)
    else if !Survives(p, r, first, t) then t.(pruningSuffix := true)
    else
      Tally(t.kept + 1, t.bytes + r.bytes,
            t.pruningSuffix || t.bytes + r.bytes > p.maxBytes || t.kept + 1 >= p.maxRuns)
  }

  /** The counters before the run at the end of `runs` would be looked at. */
  function After(p: Policy, runs: seq<Run>): Tally
  {
    if runs == [] then Tally(0, 0, false)
    else Next(p, runs[|runs| - 1], |runs| == 1, After(p, runs[..|runs| - 1]))
  }

  predicate KeptAt(p: Policy, runs: seq<Run>, k: nat)
    requires k < |runs|
  {
    Survives(p, runs[k], k == 0, After(p, runs[..k]))
  }

  function Survivors(p: Policy, runs: seq<Run>): seq<Run>
  {
    if runs == [] then []
    else
      var rest := runs[..|runs| - 1];
      Survivors(p, rest) + (if KeptAt(p, runs, |runs| - 1) then [runs[|runs| - 1]] else [])
  }

  function Victims(p: Policy, runs: seq<Run>): seq<Run>
  {
    if runs == [] then []
    else
      var rest := runs[..|runs| - 1];
      Victims(p, rest) + (if KeptAt(p, runs, |runs| - 1) then [] else [runs[|runs| - 1]])
  }

  lemma NotPinned(p: Policy, runs: seq<Run>, k: nat)
    requires k < |runs| && !KeptAt(p, runs, k)
    ensures runs[k].id !in p.pinned
  {
  }

  /** Every run is kept or pruned, never both, and pins are never pruned. */
  lemma {:induction false} NothingLost(p: Policy, runs: seq<Run>)
    ensures multiset(Survivors(p, runs)) + multiset(Victims(p, runs)) == multiset(runs)
    ensures forall r :: r in Victims(p, runs) ==> r.id !in p.pinned
  {
    hide After, KeptAt;
    if runs != [] {
      var k := |runs| - 1;
      NothingLost(p, runs[..k]);
      if !KeptAt(p, runs, k) { NotPinned(p, runs, k); }
      assert runs == runs[..k] + [runs[k]];
    }
  }

  function TotalBytes(runs: seq<Run>): nat
  {
    if runs == [] then 0 else TotalBytes(runs[..|runs| - 1]) + runs[|runs| - 1].bytes
  }

  /** One more run at the end of the order, as the loop sees it. */
  lemma OneMore(p: Policy, runs: seq<Run>, k: nat)
    requires k < |runs|
    ensures After(p, runs[..k + 1]) == Next(p, runs[k], k == 0, After(p, runs[..k]))
    ensures Survivors(p, runs[..k + 1]) == Survivors(p, runs[..k]) + (if KeptAt(p, runs, k) then [runs[k]] else [])
    ensures Victims(p, runs[..k + 1]) == Victims(p, runs[..k]) + (if KeptAt(p, runs, k) then [] else [runs[k]])
  {
    assert runs[..k + 1][..k] == runs[..k];
  }

  method Prune(p: Policy, runs: seq<Run>) returns (kept: seq<Run>, pruned: seq<Run>)
    ensures kept == Survivors(p, runs) && pruned == Victims(p, runs)
    ensures multiset(kept) + multiset(pruned) == multiset(runs)
  {
    hide Survivors, Victims, After;
    kept, pruned := [], [];
    var count: nat, bytes: nat, pruningSuffix := 0, 0, false;
    NoRuns(p);
    for index := 0 to |runs|
      invariant Tally(count, bytes, pruningSuffix) == After(p, runs[..index])
      invariant kept == Survivors(p, runs[..index]) && pruned == Victims(p, runs[..index])
    {
      var entry := runs[index];
      OneMore(p, runs, index);
      if entry.id in p.pinned {
        count, bytes := count + 1, bytes + entry.bytes;
        kept := kept + [entry];
        continue;
      }
      var mustKeep := index == 0;
      var fits := !pruningSuffix && count < p.maxRuns && bytes + entry.bytes <= p.maxBytes;
      if !mustKeep && !fits {
        pruningSuffix := true;
        pruned := pruned + [entry];
        continue;
      }
      count, bytes := count + 1, bytes + entry.bytes;
      kept := kept + [entry];
      if bytes > p.maxBytes || count >= p.maxRuns { pruningSuffix := true; }
    }
    assert runs[..|runs|] == runs;
    NothingLost(p, runs);
  }

  lemma NoRuns(p: Policy)
    ensures Survivors(p, []) == [] == Victims(p, []) && After(p, []) == Tally(0, 0, false)
  {
  }

  lemma {:induction false} AfterCounts(p: Policy, runs: seq<Run>)
    ensures After(p, runs).kept == |Survivors(p, runs)|
    ensures After(p, runs).bytes == TotalBytes(Survivors(p, runs))
  {
    if runs != [] {
      var rest, last := runs[..|runs| - 1], runs[|runs| - 1];
      AfterCounts(p, rest);
      if KeptAt(p, runs, |runs| - 1) {
        assert (Survivors(p, rest) + [last])[..|Survivors(p, rest)|] == Survivors(p, rest);
      } else {
        assert Survivors(p, rest) + [] == Survivors(p, rest);
      }
    }
  }

  lemma {:induction false} SuffixStays(p: Policy, runs: seq<Run>, i: nat, j: nat)
    requires i <= j <= |runs| && After(p, runs[..i]).pruningSuffix
    ensures After(p, runs[..j]).pruningSuffix
    decreases j
  {
    if i < j {
      SuffixStays(p, runs, i, j - 1);
      assert runs[..j][..j - 1] == runs[..j - 1];
    }
  }

  /** Kept unpinned runs are a prefix of the unpinned order: after the first one pruned, all are. */
  lemma PrunedIsSuffix(p: Policy, runs: seq<Run>, i: nat, j: nat)
    requires i < j < |runs| && runs[i].id !in p.pinned && runs[j].id !in p.pinned
    requires !KeptAt(p, runs, i)
    ensures !KeptAt(p, runs, j)
  {
    assert runs[..i + 1][..i] == runs[..i];
    SuffixStays(p, runs, i + 1, j);
  }

  /** A kept run that is neither pinned nor first fits both budgets with everything kept before it. */
  lemma KeptFits(p: Policy, runs: seq<Run>, k: nat)
    requires 0 < k < |runs| && runs[k].id !in p.pinned && KeptAt(p, runs, k)
    ensures |Survivors(p, runs[..k])| + 1 <= p.maxRuns
    ensures TotalBytes(Survivors(p, runs[..k])) + runs[k].bytes <= p.maxBytes
  {
    AfterCounts(p, runs[..k]);
  }

  lemma {:induction false} SuffixHasCause(p: Policy, runs: seq<Run>, k: nat)
    requires k <= |runs| && After(p, runs[..k]).pruningSuffix
    requires forall i :: 0 <= i < k ==> KeptAt(p, runs, i)
    ensures var t := After(p, runs[..k]); t.kept >= p.maxRuns || t.bytes > p.maxBytes
    decreases k
  {
    if k > 0 {
      assert runs[..k][..k - 1] == runs[..k - 1];
      assert KeptAt(p, runs, k - 1);
      if After(p, runs[..k - 1]).pruningSuffix { SuffixHasCause(p, runs, k - 1); }
    }
  }

  /** The newest run that is pruned did not fit behind everything newer. */
  lemma FirstPrunedDidNotFit(p: Policy, runs: seq<Run>, k: nat)
    requires k < |runs| && !KeptAt(p, runs, k)
    requires forall i :: 0 <= i < k ==> KeptAt(p, runs, i)
    ensures 0 < k && runs[k].id !in p.pinned
    ensures |Survivors(p, runs[..k])| >= p.maxRuns
            || TotalBytes(Survivors(p, runs[..k])) + runs[k].bytes > p.maxBytes
  {
    AfterCounts(p, runs[..k]);
    if After(p, runs[..k]).pruningSuffix { SuffixHasCause(p, runs, k); }
  }

  /** The first run and the pinned ones survive whatever the budgets. */
  lemma {:induction false} ProtectedSurvive(p: Policy, runs: seq<Run>, k: nat)
    requires k < |runs| && (k == 0 || runs[k].id in p.pinned)
    ensures runs[k] in Survivors(p, runs)
    decreases |runs|
  {
    if k < |runs| - 1 { ProtectedSurvive(p, runs[..|runs| - 1], k); }
    else { assert runs[k] == runs[|runs| - 1]; }
  }

  /** A second pass over what the first one kept sees the same counters and prunes nothing. */
  lemma {:induction false} PruneIsIdempotent(p: Policy, runs: seq<Run>)
    ensures var s := Survivors(p, runs);
            && Survivors(p, s) == s
            && After(p, s).kept == After(p, runs).kept && After(p, s).bytes == After(p, runs).bytes
            && (After(p, s).pruningSuffix ==> After(p, runs).pruningSuffix)
            && (s == [] <==> runs == [])
  {
    if runs != [] {
      var rest, last := runs[..|runs| - 1], runs[|runs| - 1];
      PruneIsIdempotent(p, rest);
      var s := Survivors(p, rest);
      if KeptAt(p, runs, |runs| - 1) {
        assert (s + [last])[..|s|] == s;
        assert KeptAt(p, s + [last], |s|);
      } else {
        assert s + [] == s;
      }
    }
  }

  // ---- a whole pass: sort, then prune ----

  function Pass(p: Policy, listed: seq<Run>, protectedRun: int): seq<Run>
  {
    Survivors(p, NewestFirst(listed, protectedRun))
  }

  lemma {:induction false} SortedStays(runs: seq<Run>, protectedRun: int)
    requires Ordered(runs, protectedRun)
    ensures NewestFirst(runs, protectedRun) == runs
  {
    if runs != [] {
      SortedStays(runs[1..], protectedRun);
      assert runs == [runs[0]] + runs[1..];
    }
  }

  lemma {:induction false} SurvivorsOrdered(p: Policy, runs: seq<Run>, protectedRun: int)
    requires Ordered(runs, protectedRun)
    ensures Ordered(Survivors(p, runs), protectedRun)
    ensures forall r :: r in Survivors(p, runs) ==> r in runs
  {
    hide KeptAt;
    if runs != [] {
      var rest, last := runs[..|runs| - 1], runs[|runs| - 1];
      SurvivorsOrdered(p, rest, protectedRun);
      forall r | r in Survivors(p, rest) ensures Ahead(r, last, protectedRun) {
        var i :| 0 <= i < |rest| && rest[i] == r;
        assert runs[i] == r;
      }
    }
  }

  /** No two different runs stand equally ahead of each other. */
  ghost predicate NoTies(runs: seq<Run>, protectedRun: int)
  {
    forall a, b :: a in runs && b in runs && Ahead(a, b, protectedRun) && Ahead(b, a, protectedRun) ==> a == b
  }

  lemma {:induction false} OrderIsUnique(a: seq<Run>, b: seq<Run>, protectedRun: int)
    requires Ordered(a, protectedRun) && Ordered(b, protectedRun) && NoTies(a, protectedRun)
    requires multiset(a) == multiset(b)
    ensures a == b
  {
    if a == [] {
      assert |multiset(b)| == 0;
    } else {
      assert |multiset(a)| == |a| && |multiset(b)| == |b|;
      SameHead(a, b, protectedRun);
      RestOf(a);
      RestOf(b);
      RestOrdered(a, protectedRun);
      RestOrdered(b, protectedRun);
      hide Ordered, NoTies;
      OrderIsUnique(a[1..], b[1..], protectedRun);
    }
  }

  lemma RestOf(a: seq<Run>)
    requires a != []
    ensures a == [a[0]] + a[1..] && multiset(a[1..]) == multiset(a) - multiset{a[0]}
  {
    assert a == [a[0]] + a[1..];
  }

  lemma RestOrdered(a: seq<Run>, protectedRun: int)
    requires Ordered(a, protectedRun) && a != []
    ensures Ordered(a[1..], protectedRun) && (NoTies(a, protectedRun) ==> NoTies(a[1..], protectedRun))
  {
  }

  lemma SameHead(a: seq<Run>, b: seq<Run>, protectedRun: int)
    requires Ordered(a, protectedRun) && Ordered(b, protectedRun) && NoTies(a, protectedRun)
    requires a != [] && b != [] && multiset(a) == multiset(b)
    ensures a[0] == b[0]
  {
    assert a[0] in multiset(b) && b[0] in multiset(a);
    var i :| 0 <= i < |b| && b[i] == a[0];
    var j :| 0 <= j < |a| && a[j] == b[0];
    assert i > 0 ==> Ahead(b[0], b[i], protectedRun);
    assert j > 0 ==> Ahead(a[0], a[j], protectedRun);
  }

  /** Pruning twice is pruning once: a pass over what a pass kept removes nothing, in whatever order the runs are
      listed then, unless two of them tie. */
  lemma PassTwiceIsOnce(p: Policy, listed: seq<Run>, again: seq<Run>, protectedRun: int)
    requires multiset(again) == multiset(Pass(p, listed, protectedRun))
    requires again == Pass(p, listed, protectedRun) || NoTies(again, protectedRun)
    ensures Pass(p, again, protectedRun) == Pass(p, listed, protectedRun)
  {
    hide Survivors, NewestFirst, Ordered, NoTies;
    var kept := Pass(p, listed, protectedRun);
    NewestFirstSorts(listed, protectedRun);
    SurvivorsOrdered(p, NewestFirst(listed, protectedRun), protectedRun);
    SortedStays(kept, protectedRun);
    NewestFirstSorts(again, protectedRun);
    if again != kept {
      TiesSorted(again, protectedRun);
      OrderIsUnique(NewestFirst(again, protectedRun), kept, protectedRun);
    }
    PruneIsIdempotent(p, NewestFirst(listed, protectedRun));
  }

  lemma TiesSorted(runs: seq<Run>, protectedRun: int)
    requires NoTies(runs, protectedRun)
    ensures NoTies(NewestFirst(runs, protectedRun), protectedRun)
  {
    NewestFirstSorts(runs, protectedRun);
    var s := NewestFirst(runs, protectedRun);
    assert forall r :: r in s ==> r in multiset(s);
    assert forall r :: r in multiset(runs) ==> r in runs;
  }

  /** With a tie the listing decides: two runs of one moment, one of them pinned, and a budget of one. */
  lemma TiedPassPrunesMore(first: Run, pinned: Run, tied: Run, p: Policy)
    requires first.id != pinned.id && first.id != tied.id && pinned.id != tied.id
    requires pinned.finishedAt == tied.finishedAt && p == Policy(2, first.bytes + tied.bytes, {pinned.id})
    requires pinned.bytes > 0
    ensures Pass(p, [first, tied, pinned], first.id) == [first, tied, pinned]
    ensures Pass(p, [first, pinned, tied], first.id) == [first, pinned]
  {
    SortedStays([first, tied, pinned], first.id);
    SortedStays([first, pinned, tied], first.id);
    ThreeRuns(p, first, tied, pinned);
    ThreeRuns(p, first, pinned, tied);
  }

  lemma ThreeRuns(p: Policy, a: Run, b: Run, c: Run)
    ensures var s := [a, b, c];
            && Survivors(p, s) == [a] + (if KeptAt(p, s, 1) then [b] else []) + (if KeptAt(p, s, 2) then [c] else [])
            && After(p, s[..1]) == Next(p, a, true, Tally(0, 0, false))
            && After(p, s[..2]) == Next(p, b, false, After(p, s[..1]))
  {
    hide KeptAt, Next;
    var s := [a, b, c];
    NoRuns(p);
    assert s[..0] == [] && s[..3] == s;
    OneMore(p, s, 0);
    OneMore(p, s, 1);
    OneMore(p, s, 2);
    FirstIsKept(p, s);
  }

  lemma FirstIsKept(p: Policy, runs: seq<Run>)
    requires runs != []
    ensures KeptAt(p, runs, 0)
  {
  }
}
