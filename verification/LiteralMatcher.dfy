/**
 * The streaming Knuth-Morris-Pratt matcher behind the include and exclude
 * filters, proved against substring occurrence for every way of cutting the
 * text into chunks.
 */
module LiteralMatching {
  import opened Bytes

  function FoldAscii(b: byte): byte { if 0x41 <= b <= 0x5a then b + 0x20 else b }

  function Fold(s: seq<byte>, ignoreCase: bool): (r: seq<byte>)
    ensures |r| == |s|
  {
    if ignoreCase then seq(|s|, i requires 0 <= i < |s| => FoldAscii(s[i])) else s
  }

  predicate OccursAt(needle: seq<byte>, text: seq<byte>, i: int)
  {
    0 <= i && i + |needle| <= |text| && text[i..i + |needle|] == needle
  }

  predicate Occurs(needle: seq<byte>, text: seq<byte>)
  {
    exists i | 0 <= i <= |text| :: OccursAt(needle, text, i)
  }

  /** The first `k` bytes of the needle are the last `k` bytes of the text. */
  ghost predicate Overlap(needle: seq<byte>, text: seq<byte>, k: int)
  {
    0 <= k <= |needle| && k <= |text| && text[|text| - k..] == needle[..k]
  }

  ghost predicate LongestOverlap(needle: seq<byte>, text: seq<byte>, k: int)
  {
    Overlap(needle, text, k) && forall j :: Overlap(needle, text, j) ==> j <= k
  }

  /**
   * A proper border of `p` is a shorter prefix that is also a suffix. The entry
   * at index `i` of a failure table is the longest one of the first `i + 1` bytes.
   */
  ghost predicate Border(p: seq<byte>, k: int)
  {
    0 <= k < |p| && p[..k] == p[|p| - k..]
  }

  ghost predicate IsFailureTable(needle: seq<byte>, table: seq<nat>)
  {
    |table| <= |needle| && forall i :: 0 <= i < |table| ==> IsLongestBorder(needle[..i + 1], table[i])
  }

  ghost predicate IsLongestBorder(p: seq<byte>, k: int)
  {
    Border(p, k) && forall j :: Border(p, j) ==> j <= k
  }

  /** Overlaps shorter than a known one are exactly the borders of that one. */
  lemma ShorterOverlaps(needle: seq<byte>, text: seq<byte>, k: int, j: int)
    requires Overlap(needle, text, k) && j < k
    ensures Overlap(needle, text, j) <==> Border(needle[..k], j)
  {
    if 0 <= j {
      assert text[|text| - j..] == text[|text| - k..][k - j..];
      assert needle[..k][..j] == needle[..j];
      assert needle[..k][k - j..] == text[|text| - j..];
    }
  }

  /** No overlap longer than `k` continues with the byte `b`. */
  ghost predicate Exhausted(needle: seq<byte>, text: seq<byte>, k: int, b: byte)
  {
    forall j :: Overlap(needle, text, j) && k < j ==> j == |needle| || needle[j] != b
  }

  lemma FailureStep(needle: seq<byte>, text: seq<byte>, k: int, b: byte, table: seq<nat>)
    requires IsFailureTable(needle, table) && 0 < k <= |table| && k < |needle|
    requires Overlap(needle, text, k) && Exhausted(needle, text, k, b) && needle[k] != b
    ensures Overlap(needle, text, table[k - 1]) && table[k - 1] < k
    ensures Exhausted(needle, text, table[k - 1], b)
  {
    var f := table[k - 1];
    assert IsLongestBorder(needle[..k], f);
    ShorterOverlaps(needle, text, k, f);
    forall j | Overlap(needle, text, j) && f < j ensures j == |needle| || needle[j] != b {
      if j < k { ShorterOverlaps(needle, text, k, j); }
    }
  }

  lemma TableExtend(needle: seq<byte>, table: seq<nat>, k: nat)
    requires IsFailureTable(needle, table) && |table| < |needle|
    requires IsLongestBorder(needle[..|table| + 1], k)
    ensures IsFailureTable(needle, table + [k])
  {
  }

  lemma ExtendOverlap(needle: seq<byte>, text: seq<byte>, b: byte, j: int)
    requires 0 < j
    ensures Overlap(needle, text + [b], j) <==>
            Overlap(needle, text, j - 1) && j <= |needle| && needle[j - 1] == b
  {
    if j <= |needle| && j <= |text| + 1 {
      assert (text + [b])[|text| + 1 - j..] == text[|text| - (j - 1)..] + [b];
      assert needle[..j] == needle[..j - 1] + [needle[j - 1]];
      if Overlap(needle, text + [b], j) {
        assert text[|text| - (j - 1)..] == (text + [b])[|text| + 1 - j..][..j - 1];
        assert needle[..j - 1] == needle[..j][..j - 1];
      }
    }
  }

  /** `p` is the longest overlap the byte `b` can extend, or the search is exhausted. */
  lemma NextOverlap(needle: seq<byte>, text: seq<byte>, b: byte, p: int)
    requires p < |needle| && Overlap(needle, text, p)
    requires Exhausted(needle, text, p, b)
    requires p > 0 ==> needle[p] == b
    ensures LongestOverlap(needle, text + [b], if needle[p] == b then p + 1 else p)
  {
    var q := if needle[p] == b then p + 1 else p;
    if needle[p] == b { ExtendOverlap(needle, text, b, p + 1); }
    forall j | Overlap(needle, text + [b], j) ensures j <= q {
      if 0 < j { ExtendOverlap(needle, text, b, j); }
    }
  }

  lemma OccursExtend(needle: seq<byte>, text: seq<byte>, b: byte)
    requires needle != []
    ensures Occurs(needle, text + [b]) <==> Occurs(needle, text) || Overlap(needle, text + [b], |needle|)
  {
    var t := text + [b];
    if Occurs(needle, text) {
      var i :| 0 <= i <= |text| && OccursAt(needle, text, i);
      assert t[i..i + |needle|] == text[i..i + |needle|];
      assert OccursAt(needle, t, i);
    }
    if Overlap(needle, t, |needle|) {
      assert t[|t| - |needle|..|t| - |needle| + |needle|] == t[|t| - |needle|..];
      assert OccursAt(needle, t, |t| - |needle|);
    }
    if Occurs(needle, t) {
      var i :| 0 <= i <= |t| && OccursAt(needle, t, i);
      if i + |needle| <= |text| {
        assert t[i..i + |needle|] == text[i..i + |needle|];
        assert OccursAt(needle, text, i);
      } else {
        assert t[i..i + |needle|] == t[|t| - |needle|..];
      }
    }
  }

  lemma OccursMonotone(needle: seq<byte>, text: seq<byte>, more: seq<byte>)
    requires Occurs(needle, text)
    ensures Occurs(needle, text + more)
  {
    var i :| 0 <= i <= |text| && OccursAt(needle, text, i);
    assert (text + more)[i..i + |needle|] == text[i..i + |needle|];
    assert OccursAt(needle, text + more, i);
  }

  lemma FoldConcat(a: seq<byte>, b: seq<byte>, ignoreCase: bool)
    ensures Fold(a + b, ignoreCase) == Fold(a, ignoreCase) + Fold(b, ignoreCase)
  {
  }

  lemma FoldHead(text: seq<byte>, rest: seq<byte>, ignoreCase: bool)
    requires rest != []
    ensures var b := if ignoreCase then FoldAscii(rest[0]) else rest[0];
            text + Fold(rest, ignoreCase) == text + [b] + Fold(rest[1..], ignoreCase)
  {
  }

  /** The borders of a one-byte-longer prefix, read as overlaps of the needle with its own tail. */
  lemma BorderAsOverlap(needle: seq<byte>, i: int, k: int)
    requires 0 < i <= |needle|
    ensures Border(needle[..i], k) <==> Overlap(needle, needle[1..i], k)
  {
    if 0 <= k < i {
      assert needle[..i][..k] == needle[..k];
      assert needle[..i][i - k..] == needle[1..i][i - 1 - k..];
    }
  }

  lemma LongestAsBorder(needle: seq<byte>, i: int, k: int)
    requires 0 < i <= |needle|
    ensures LongestOverlap(needle, needle[1..i], k) <==> IsLongestBorder(needle[..i], k)
  {
    BorderAsOverlap(needle, i, k);
    if LongestOverlap(needle, needle[1..i], k) {
      forall j | Border(needle[..i], j) ensures j <= k { BorderAsOverlap(needle, i, j); }
    }
    if IsLongestBorder(needle[..i], k) {
      forall j | Overlap(needle, needle[1..i], j) ensures j <= k { BorderAsOverlap(needle, i, j); }
    }
  }

  /**
   * One byte of the automaton, the loop both the table construction and the scan
   * run: follow failure links until the byte extends the overlap.
   */
  method Advance(needle: seq<byte>, failure: array<nat>, from: nat, b: byte, ghost text: seq<byte>, ghost filled: nat)
    returns (next: nat, ghost steps: nat)
    requires from <= filled <= failure.Length && from < |needle|
    requires IsFailureTable(needle, failure[..filled])
    requires LongestOverlap(needle, text, from)
    ensures LongestOverlap(needle, text + [b], next)
    ensures steps + next <= from + 1
  {
    next, steps := from, 0;
    ghost var table := failure[..filled];
    while next > 0 && b != needle[next]
      invariant 0 <= next < |needle| && next <= from
      invariant Overlap(needle, text, next) && Exhausted(needle, text, next, b)
      invariant steps + next <= from
    {
      FailureStep(needle, text, next, b, table);
      assert failure[next - 1] == table[next - 1];
      next := failure[next - 1];
      steps := steps + 1;
    }
    NextOverlap(needle, text, b, next);
    if b == needle[next] { next := next + 1; }
  }

  /** Before the first match the longest overlap decides whether a byte completes one. */
  lemma Completes(needle: seq<byte>, text: seq<byte>, b: byte, next: nat)
    requires needle != [] && !Occurs(needle, text)
    requires LongestOverlap(needle, text + [b], next)
    ensures Occurs(needle, text + [b]) <==> next == |needle|
  {
    OccursExtend(needle, text, b);
  }

  lemma NothingYet(needle: seq<byte>)
    requires needle != []
    ensures !Occurs(needle, []) && LongestOverlap(needle, [], 0)
  {
  }

  class LiteralMatcher {
    const ignoreCase: bool
    const needle: seq<byte>
    const failure: array<nat>
    var progress: nat
    var matched: bool
    /** Everything pushed since the last reset, and the failure links followed for it. */
    ghost var fed: seq<byte>
    ghost var linkSteps: nat

    ghost function Text(): seq<byte>
      reads this
    {
      Fold(fed, ignoreCase)
    }

    ghost predicate Valid()
      reads this, failure
    {
      && 0 < |needle| == failure.Length
      && IsFailureTable(needle, failure[..|needle|])
      && matched == Occurs(needle, Text())
      && (!matched ==> progress < |needle| && LongestOverlap(needle, Text(), progress))
      && linkSteps + progress <= |fed|
    }

    constructor (pattern: seq<byte>, ignoreCase: bool)
      requires pattern != []
      ensures Valid() && fresh(failure)
      ensures this.ignoreCase == ignoreCase && needle == Fold(pattern, ignoreCase)
      ensures fed == [] && !matched
    {
      var folded := Fold(pattern, ignoreCase);
      this.ignoreCase := ignoreCase;
      this.needle := folded;
      this.failure := new nat[|folded|](_ => 0);
      this.progress, this.matched := 0, false;
      this.fed, this.linkSteps := [], 0;
      new;
      var index, prefix := 1, 0;
      LongestAsBorder(needle, 1, 0);
      while index < |needle|
        invariant 1 <= index <= |needle| == failure.Length && prefix < index
        invariant IsFailureTable(needle, failure[..index])
        invariant LongestOverlap(needle, needle[1..index], prefix)
        modifies failure
      {
        ghost var table, steps := failure[..index], 0;
        prefix, steps := Advance(needle, failure, prefix, needle[index], needle[1..index], index);
        assert needle[1..index] + [needle[index]] == needle[1..index + 1];
        LongestAsBorder(needle, index + 1, prefix);
        TableExtend(needle, table, prefix);
        failure[index] := prefix;
        assert failure[..index + 1] == table + [prefix];
        index := index + 1;
      }
    }

    /** Scanning resumes wherever the previous chunk stopped; a match is final until `reset`. */
    method push(chunk: seq<byte>)
      requires Valid()
      modifies this
      ensures Valid() && fed == old(fed) + chunk
      ensures matched == Occurs(needle, Fold(old(fed) + chunk, ignoreCase))
      ensures linkSteps <= |fed|
    {
      ghost var text: seq<byte> := Text();
      ghost var whole: seq<byte> := Fold(fed + chunk, ignoreCase);
      FoldConcat(fed, chunk, ignoreCase);
      fed := fed + chunk;
      if matched {
        OccursMonotone(needle, text, Fold(chunk, ignoreCase));
        return;
      }
      for at := 0 to |chunk|
        invariant !matched && !Occurs(needle, text)
        invariant progress < |needle| && LongestOverlap(needle, text, progress)
        invariant linkSteps + progress <= |fed| - |chunk| + at
        invariant text + Fold(chunk[at..], ignoreCase) == whole
        invariant fed == old(fed) + chunk
      {
        var b: byte := if ignoreCase then FoldAscii(chunk[at]) else chunk[at];
        FoldHead(text, chunk[at..], ignoreCase);
        ghost var steps;
        progress, steps := Advance(needle, failure, progress, b, text, |needle|);
        linkSteps := linkSteps + steps;
        Completes(needle, text, b, progress);
        text := text + [b];
        if progress == |needle| {
          matched := true;
          OccursMonotone(needle, text, Fold(chunk[at + 1..], ignoreCase));
          return;
        }
      }
      assert text == whole;
    }

    method reset()
      requires Valid()
      modifies this
      ensures Valid() && fed == [] && !matched
    {
      NothingYet(needle);
      hide Occurs, LongestOverlap, IsFailureTable;
      progress, matched := 0, false;
      fed, linkSteps := [], 0;
    }
  }

  lemma MatchedMeansOccurs(m: LiteralMatcher)
    requires m.Valid()
    ensures m.matched == Occurs(m.needle, Fold(m.fed, m.ignoreCase))
  {
  }
}
