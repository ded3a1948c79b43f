/** UTF-8 edges: where a page of bytes may stop without splitting a code point. */
module Utf8 {
  import opened Bytes

  predicate IsContinuation(b: byte) { 0x80 <= b < 0xc0 }

  /** Bytes a lead announces; a byte that cannot lead counts as one on its own. */
  function SequenceLength(lead: byte): (n: nat)
    ensures 1 <= n <= 4
  {
    if lead < 0x80 then 1
    else if 0xc0 <= lead < 0xe0 then 2
    else if 0xe0 <= lead < 0xf0 then 3
    else if 0xf0 <= lead < 0xf8 then 4
    else 1
  }

  predicate Ascii(s: seq<byte>) { forall i :: 0 <= i < |s| ==> s[i] < 0x80 }

  /** Sequences shaped as in section 3 of RFC 3629: a lead and its continuation bytes. */
  predicate Shaped(s: seq<byte>)
    decreases |s|
  {
    s == [] ||
    var n := SequenceLength(s[0]);
    && !IsContinuation(s[0]) && s[0] < 0xf8
    && n <= |s|
    && (forall i :: 1 <= i < n ==> IsContinuation(s[i]))
    && Shaped(s[n..])
  }

  /** The last byte that is not a continuation, or the first byte of all. */
  function LeadIndex(s: seq<byte>): (i: nat)
    requires s != []
    ensures i < |s|
    ensures i == 0 || !IsContinuation(s[i])
    ensures forall j :: i < j < |s| ==> IsContinuation(s[j])
  {
    if |s| == 1 || !IsContinuation(s[|s| - 1]) then |s| - 1
    else
      LeadIndex(s[..|s| - 1])
  }

  function SafeLength(s: seq<byte>): (n: nat)
    ensures n <= |s| <= n + 3
  {
    if s == [] then 0
    else
      var lead := LeadIndex(s);
      if SequenceLength(s[lead]) > |s| - lead then lead else |s|
  }

  method Utf8SafeHeadLength(s: seq<byte>) returns (n: nat)
    ensures n == SafeLength(s)
  {
    if |s| == 0 { return 0; }
    var lead := |s| - 1;
    while lead > 0 && IsContinuation(s[lead])
      invariant 0 <= lead < |s|
      invariant forall j :: lead < j < |s| ==> IsContinuation(s[j])
    {
      lead := lead - 1;
    }
    var available := |s| - lead;
    n := if SequenceLength(s[lead]) > available then lead else |s|;
  }

  lemma LeadIndexUnique(s: seq<byte>, i: nat)
    requires i < |s|
    requires i == 0 || !IsContinuation(s[i])
    requires forall j :: i < j < |s| ==> IsContinuation(s[j])
    ensures LeadIndex(s) == i
  {
  }

  /** A whole sequence in front of more bytes does not move the safe length. */
  lemma SafeLengthSkips(s: seq<byte>, w: nat)
    requires w < |s| && !IsContinuation(s[w])
    ensures SafeLength(s) == w + SafeLength(s[w..])
  {
    var rest := s[w..];
    var m := LeadIndex(rest);
    forall j | w + m < j < |s| ensures IsContinuation(s[j]) { assert s[j] == rest[j - w]; }
    LeadIndexUnique(s, w + m);
  }

  /** Stopping inside or right behind the first sequence. */
  lemma SafeLengthOfFirst(s: seq<byte>, k: nat)
    requires Shaped(s) && 0 < k <= |s| && k <= SequenceLength(s[0])
    ensures SafeLength(s[..k]) == if k < SequenceLength(s[0]) then 0 else k
  {
    LeadIndexUnique(s[..k], 0);
  }

  lemma ShapedPrefix(s: seq<byte>, n: nat)
    requires s != [] && Shaped(s) && SequenceLength(s[0]) <= n <= |s|
    requires var w := SequenceLength(s[0]); Shaped(s[w..][..n - w])
    ensures Shaped(s[..n])
  {
    var w := SequenceLength(s[0]);
    assert s[..n][w..] == s[w..][..n - w];
  }

  /**
   * Cutting a prefix of well shaped text at its safe length splits no code
   * point: what is kept and what is left for the next page are both whole.
   */
  lemma {:induction false} SafeCutIsBoundary(s: seq<byte>, k: nat)
    requires Shaped(s) && k <= |s|
    ensures var n := SafeLength(s[..k]); Shaped(s[..n]) && Shaped(s[n..])
    decreases |s|
  {
    hide SafeLength, LeadIndex;
    if k == 0 {
      SafeLengthOfNothing();
      assert s[0..] == s && s[..0] == [];
    } else if k <= SequenceLength(s[0]) {
      SafeLengthOfFirst(s, k);
      assert s[0..] == s && s[..0] == [];
      if k == SequenceLength(s[0]) {
        assert s[k..][..0] == [];
        ShapedPrefix(s, k);
      }
    } else {
      var w := SequenceLength(s[0]);
      SafeCutIsBoundary(s[w..], k - w);
      BehindFirst(s, k, w);
    }
  }

  /** A cut behind the first code point is a cut of what follows it. */
  lemma BehindFirst(s: seq<byte>, k: nat, w: nat)
    requires s != [] && Shaped(s) && w == SequenceLength(s[0]) < k <= |s|
    requires var n := SafeLength(s[w..][..k - w]); Shaped(s[w..][..n]) && Shaped(s[w..][n..])
    ensures var n := SafeLength(s[..k]); Shaped(s[..n]) && Shaped(s[n..])
  {
    hide *;
    NextLeads(s, w);
    CutOfRest(s, k, w);
    SafeLengthSkips(s[..k], w);
    var n := SafeLength(s[..k]);
    RestOfCut(s, n, w);
    ShapedPrefix(s, n);
  }

  lemma CutOfRest(s: seq<byte>, k: nat, w: nat)
    requires w < k <= |s|
    ensures s[..k][w] == s[w] && s[..k][w..] == s[w..][..k - w]
  {
  }

  lemma RestOfCut(s: seq<byte>, n: nat, w: nat)
    requires w <= n <= |s|
    ensures s[n..] == s[w..][n - w..]
  {
  }

  lemma NextLeads(s: seq<byte>, w: nat)
    requires s != [] && Shaped(s) && w == SequenceLength(s[0]) < |s|
    ensures !IsContinuation(s[w])
  {
    assert s[w..] != [] && s[w..][0] == s[w];
  }

  lemma SafeLengthOfNothing()
    ensures SafeLength([]) == 0
  {
  }

  lemma AsciiIsSafe(s: seq<byte>)
    requires Ascii(s)
    ensures SafeLength(s) == |s|
  {
  }

  /** A newline is never part of a longer sequence, so a complete line is always whole. */
  lemma NewlineEndsSafely(s: seq<byte>)
    requires s != [] && s[|s| - 1] == NEWLINE
    ensures SafeLength(s) == |s|
  {
  }

  function LeadingContinuations(s: seq<byte>): (n: nat)
    ensures n <= |s|
    ensures forall i :: 0 <= i < n ==> IsContinuation(s[i])
    ensures n < |s| ==> !IsContinuation(s[n])
  {
    if s == [] || !IsContinuation(s[0]) then 0 else 1 + LeadingContinuations(s[1..])
  }

  /** Whole code points, but for what is left of one at the very start. */
  predicate Textual(s: seq<byte>)
  {
    LeadingContinuations(s) <= 3 && Shaped(s[LeadingContinuations(s)..])
  }

  predicate AtEdge(s: seq<byte>, k: nat)
  {
    k >= |s| || !IsContinuation(s[k])
  }

  /** Well shaped text may be cut in front of any byte that is not a continuation. */
  lemma {:induction false} CutAtEdge(s: seq<byte>, k: nat)
    requires Shaped(s) && k <= |s| && AtEdge(s, k)
    ensures Shaped(s[..k]) && Shaped(s[k..])
    decreases |s|
  {
    if k == 0 {
      assert s[..0] == [] && s[0..] == s;
    } else {
      var w := SequenceLength(s[0]);
      assert w <= k;
      CutAtEdge(s[w..], k - w);
      assert s[w..][k - w..] == s[k..];
      ShapedPrefix(s, k);
    }
  }

  /** Any suffix of well shaped text is text behind at most three strays. */
  lemma {:induction false} SuffixIsTextual(s: seq<byte>, k: nat)
    requires Shaped(s) && k <= |s|
    ensures Textual(s[k..])
    decreases |s|
  {
    if k == 0 {
      assert s[0..] == s;
      Unstrayed(s);
    } else {
      var w := SequenceLength(s[0]);
      if w <= k {
        SuffixIsTextual(s[w..], k - w);
        assert s[w..][k - w..] == s[k..];
      } else {
        InsideFirst(s, k);
      }
    }
  }

  /** Inside the first code point. */
  lemma InsideFirst(s: seq<byte>, k: nat)
    requires Shaped(s) && s != [] && 0 < k < SequenceLength(s[0])
    ensures k <= |s| && Textual(s[k..])
  {
    var w, rest := SequenceLength(s[0]), s[k..];
    assert w < |s| ==> s[w..][0] == s[w];
    forall i | 0 <= i < w - k ensures IsContinuation(rest[i]) { assert rest[i] == s[k + i]; }
    assert w < |s| ==> rest[w - k] == s[w];
    hide LeadingContinuations;
    StraysCounted(rest, w - k);
    assert rest[w - k..] == s[w..];
  }

  lemma TextualSuffix(s: seq<byte>, cut: nat)
    requires Textual(s) && cut <= |s|
    ensures Textual(s[cut..])
  {
    hide Shaped, LeadingContinuations;
    var k := LeadingContinuations(s);
    if k <= cut {
      SuffixIsTextual(s[k..], cut - k);
      assert s[k..][cut - k..] == s[cut..];
    } else {
      var rest := s[cut..];
      forall i | 0 <= i < k - cut ensures IsContinuation(rest[i]) { assert rest[i] == s[cut + i]; }
      assert k < |s| ==> rest[k - cut] == s[k];
      StraysCounted(rest, k - cut);
      assert rest[k - cut..] == s[k..];
    }
  }

  lemma Unstrayed(s: seq<byte>)
    requires s == [] || !IsContinuation(s[0])
    ensures LeadingContinuations(s) == 0 && s[LeadingContinuations(s)..] == s
  {
  }

  lemma {:induction false} StraysCounted(s: seq<byte>, n: nat)
    requires n <= |s| && AtEdge(s, n) && forall i :: 0 <= i < n ==> IsContinuation(s[i])
    ensures LeadingContinuations(s) == n
  {
    if n > 0 { StraysCounted(s[1..], n - 1); }
  }

  /** A newline stands alone, so the text behind it is whole. */
  lemma CutBehindNewline(s: seq<byte>, k: nat)
    requires Shaped(s) && k < |s| && s[k] == NEWLINE
    ensures Shaped(s[..k + 1]) && Shaped(s[k + 1..])
  {
    CutAtEdge(s, k);
    assert s[k..][1..] == s[k + 1..];
    assert s[k + 1..] != [] ==> s[k + 1..][0] == s[k + 1];
    CutAtEdge(s, k + 1);
  }

  lemma WholeIsTextual(s: seq<byte>)
    requires Shaped(s)
    ensures Textual(s) && LeadingContinuations(s) == 0
  {
    Unstrayed(s);
  }

  lemma {:induction false} ShapedConcat(a: seq<byte>, b: seq<byte>)
    requires Shaped(a) && Shaped(b)
    ensures Shaped(a + b)
    decreases |a|
  {
    if a == [] {
      assert a + b == b;
    } else {
      var n := SequenceLength(a[0]);
      ShapedConcat(a[n..], b);
      assert (a + b)[n..] == a[n..] + b;
    }
  }

  /** The edges of well shaped text are exactly the places where it may be cut into two. */
  lemma EdgesAreBoundaries(s: seq<byte>, k: nat)
    requires Shaped(s) && k <= |s|
    ensures AtEdge(s, k) <==> Shaped(s[..k]) && Shaped(s[k..])
  {
    if AtEdge(s, k) { CutAtEdge(s, k); }
    else { assert s[k..][0] == s[k]; }
  }

  lemma {:induction false} ShapedIsSafe(s: seq<byte>)
    requires Shaped(s)
    ensures SafeLength(s) == |s|
    decreases |s|
  {
    hide SafeLength, LeadIndex;
    if s == [] {
      SafeLengthOfNothing();
    } else {
      var w := SequenceLength(s[0]);
      if w == |s| {
        SafeLengthOfFirst(s, w);
        assert s[..w] == s;
      } else {
        assert s[w..][0] == s[w];
        ShapedIsSafe(s[w..]);
        SafeLengthSkips(s, w);
      }
    }
  }

  /** The safe length is the last edge of the text within the cut. */
  lemma SafeIsLastEdge(s: seq<byte>, n: nat)
    requires Shaped(s) && n <= |s|
    ensures var safe := SafeLength(s[..n]);
            AtEdge(s, safe) && forall m :: safe < m <= n ==> !AtEdge(s, m)
  {
    hide Shaped;
    var safe := SafeLength(s[..n]);
    SafeCutIsBoundary(s, n);
    EdgesAreBoundaries(s, safe);
    if AtEdge(s, n) {
      CutAtEdge(s, n);
      ShapedIsSafe(s[..n]);
    }
    forall m | safe < m < n ensures IsContinuation(s[m]) { assert s[..n][m] == s[m]; }
  }
}
