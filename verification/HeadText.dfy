/**
 * What an unfiltered head window keeps of text in whole code points: the longest prefix within both budgets that
 * ends on a code point, but for one kind of input.
 */
module HeadText {
  import opened Bytes
  import opened Utf8
  import opened ByteBuffers
  import opened WindowSpec
  import opened WindowEnds
  import opened WindowText
  import opened TextPages

  ghost predicate HeadBudgets(sel: Selection)
  {
    && 0 < sel.maxBytes && 0 < sel.maxLines && sel.mode == Head && !sel.preserveRawPageBytes && !sel.Filtering()
    && sel.initialLineSkipBytes == 0
  }

  /** No longer start of the text in whole code points fits. */
  ghost predicate NoLonger(sel: Selection, x: seq<byte>, whole: seq<byte>)
  {
    forall m :: |x| < m <= |whole| && AtEdge(whole, m) ==> !Fits(sel, whole[..m])
  }

  /** The longest start of a text within both budgets that ends on a code point. */
  ghost predicate LongestStart(sel: Selection, x: seq<byte>, whole: seq<byte>)
  {
    Fits(sel, x) && Shaped(x) && x <= whole && NoLonger(sel, x, whole)
  }

  /** Nothing can be added to `x` any more: a budget is spent, or the next code point did not fit. */
  ghost predicate Shut(sel: Selection, x: seq<byte>, whole: seq<byte>)
  {
    Closed(sel, x) || (|x| < |whole| && NoLonger(sel, x, whole))
  }

  lemma ShutIsLongest(sel: Selection, x: seq<byte>, whole: seq<byte>)
    requires Fits(sel, x) && x <= whole && (x == whole || Shut(sel, x, whole))
    ensures NoLonger(sel, x, whole)
  {
    hide Fits, Closed;
    if Closed(sel, x) && x != whole {
      ClosedIsLongest(sel, x, whole);
      LongestHasNoLonger(sel, x, whole);
    }
  }

  lemma LongestHasNoLonger(sel: Selection, x: seq<byte>, whole: seq<byte>)
    requires LongestPrefix(sel, x, whole)
    ensures NoLonger(sel, x, whole)
  {
    hide Fits;
  }

  lemma ShutStays(sel: Selection, x: seq<byte>, whole: seq<byte>, more: seq<byte>)
    requires Shut(sel, x, whole) && x <= whole && Shaped(whole)
    ensures Shut(sel, x, whole + more)
  {
    hide Fits, Shaped, Closed;
    var all := whole + more;
    if !Closed(sel, x) {
      forall m | |x| < m <= |all| && AtEdge(all, m) ensures !Fits(sel, all[..m]) {
        if m <= |whole| {
          assert AtEdge(whole, m) && all[..m] == whole[..m];
        } else {
          assert whole[..|whole|] == whole && AtEdge(whole, |whole|);
          LargerUnfit(sel, [], whole, all[|whole|..m]);
          assert all[..m] == whole + all[|whole|..m];
        }
      }
    }
  }

  ghost predicate HeadHolds(sel: Selection, v: View, whole: seq<byte>)
  {
    && v.selected <= whole && Shaped(v.selected) && Fits(sel, v.selected) && v.keptLines == LineCount(v.selected)
    && (v.full ==> Shut(sel, v.selected, whole))
    && (!v.full ==> !v.truncated && v.selected == whole && |whole| < sel.maxBytes && v.keptLines < sel.maxLines)
  }

  /** The line is cut at its last edge within the room that is left. */
  lemma CutAtLastEdge(sel: Selection, held: seq<byte>, raw: seq<byte>, n: nat)
    requires Shaped(held) && Shaped(raw) && |held| < sel.maxBytes && sel.maxBytes - |held| < |raw|
    requires n == SafeLength(raw[..sel.maxBytes - |held|])
    ensures var x := held + raw[..n];
            Shaped(x) && x <= held + raw && |x| <= sel.maxBytes && |x| < |held + raw| && NoLonger(sel, x, held + raw)
  {
    hide Shaped, SafeLength;
    var k, all := sel.maxBytes - |held|, held + raw;
    SafeIsLastEdge(raw, k);
    CutAtEdge(raw, n);
    ShapedConcat(held, raw[..n]);
    forall m | |held| + n < m <= |all| && AtEdge(all, m) ensures !Fits(sel, all[..m]) {
      assert m < |all| ==> all[m] == raw[m - |held|];
      assert AtEdge(raw, m - |held|);
    }
  }

  lemma PrefixCounts(held: seq<byte>, raw: seq<byte>, n: nat)
    requires WholeLines(held) && OneLine(raw) && n <= |raw|
    ensures LineCount(held + raw[..n]) == LineCount(held) + (if n == 0 then 0 else 1)
  {
    hide LineCount, Newlines;
    if n == 0 {
      assert held + raw[..0] == held;
    } else {
      assert raw[..n][..n - 1] == raw[..|raw| - 1][..n - 1];
      OneLineCounts(raw[..n]);
      WholeLinesCount(held);
      LineCountConcat(held, raw[..n]);
    }
  }

  /** The one exception: a line cut at the bare budget in the middle of a code point. */
  predicate CutsFirst(sel: Selection, raw: seq<byte>)
  {
    sel.maxBytes < |raw| && SafeLength(raw[..sel.maxBytes]) < sel.maxBytes
  }

  /** What adding `n` bytes of one more line to a text that is not shut leaves. */
  ghost predicate Leaves(sel: Selection, held: seq<byte>, raw: seq<byte>, n: nat)
    requires n <= |raw|
  {
    var x, whole := held + raw[..n], held + raw;
    && x <= whole && Shaped(x) && Fits(sel, x) && NoLonger(sel, x, whole)
    && (n < |raw| ==> Shut(sel, x, whole))
    && (n == |raw| ==> x == whole)
  }

  lemma TakesWhole(sel: Selection, held: seq<byte>, raw: seq<byte>)
    requires Shaped(held) && WholeLines(held) && Shaped(raw) && OneLine(raw)
    requires LineCount(held) < sel.maxLines && |held| + |raw| <= sel.maxBytes
    ensures Leaves(sel, held, raw, |raw|)
  {
    hide Shaped, LineCount, OneLine, WholeLines;
    PrefixCounts(held, raw, |raw|);
    assert raw[..|raw|] == raw;
    ShapedConcat(held, raw);
  }

  lemma TakesSafe(sel: Selection, held: seq<byte>, raw: seq<byte>, n: nat)
    requires Shaped(held) && WholeLines(held) && Shaped(raw) && OneLine(raw)
    requires |held| < sel.maxBytes && LineCount(held) < sel.maxLines && n <= |raw|
    requires n == SafeLength(raw[..Min(|raw|, sel.maxBytes - |held|)])
    ensures Leaves(sel, held, raw, n)
  {
    hide Shaped, LineCount, OneLine, WholeLines, SafeLength, NoLonger;
    if |raw| <= sel.maxBytes - |held| {
      assert raw[..|raw|] == raw;
      ShapedIsSafe(raw);
      TakesWhole(sel, held, raw);
    } else {
      PrefixCounts(held, raw, n);
      CutAtLastEdge(sel, held, raw, n);
    }
  }

  lemma AddHeadHolds(sel: Selection, held: seq<byte>, kept: nat, raw: seq<byte>, final: bool) returns (n: nat)
    requires HeadBudgets(sel) && Shaped(held) && WholeLines(held) && Shaped(raw) && OneLine(raw)
    requires |held| < sel.maxBytes && kept == LineCount(held) < sel.maxLines && (kept == 0 <==> held == [])
    ensures var a := AddHead(sel, held, kept, false, First(raw, sel.maxBytes), |raw|, final);
            && n <= |raw| && a.selected == held + raw[..n] && a.keptLines == LineCount(a.selected)
            && |a.selected| <= sel.maxBytes && a.keptLines <= sel.maxLines && (n == |raw| ==> !a.truncated)
            && (a.full <==> n < |raw| || |a.selected| >= sel.maxBytes || a.keptLines >= sel.maxLines)
            && (final && held == [] && CutsFirst(sel, raw) ==> n == sel.maxBytes)
            && (!(final && held == [] && CutsFirst(sel, raw)) ==> Leaves(sel, held, raw, n))
  {
    hide Shaped, SafeLength, LineCount, AddHead, First, WholeLines, Leaves;
    var refused;
    refused, n := AddHeadFate(sel, held, kept, raw, final);
    PrefixCounts(held, raw, n);
    if !(final && held == [] && CutsFirst(sel, raw)) {
      if final && |raw| <= sel.maxBytes - |held| { TakesWhole(sel, held, raw); }
      else { TakesSafe(sel, held, raw, n); }
    }
  }

  // ---- whole runs ----

  lemma FinishHeadText(sel: Selection, v: View, whole: seq<byte>, raw: seq<byte>, final: bool)
    requires HeadBudgets(sel) && HeadHolds(sel, v, whole) && Shaped(whole) && WholeLines(whole)
    requires Shaped(raw) && OneLine(raw)
    ensures var r := FinishLine(sel, v, raw, final);
            && r.selected <= whole + raw && Fits(sel, r.selected) && r.keptLines == LineCount(r.selected)
            && (!final && raw[|raw| - 1] == NEWLINE ==> HeadHolds(sel, r, whole + raw))
            && (LongestStart(sel, r.selected, whole + raw) <==> !(final && whole == [] && CutsFirst(sel, raw)))
  {
    hide *;
    HeldHead(sel, v, whole, raw);
    FinishHeadIs(sel, v, raw, final);
    var r := FinishLine(sel, v, raw, final);
    if v.full {
      FullHead(sel, v, whole, raw);
      FullHeadHolds(sel, v, r, whole, raw);
    } else {
      var n := AddHeadHolds(sel, whole, v.keptLines, raw, final);
      HeadAdded(sel, whole, raw, n, final);
      AddedHeadHolds(sel, whole, raw, n, r);
    }
  }

  lemma FinishHeadIs(sel: Selection, v: View, raw: seq<byte>, final: bool)
    requires HeadBudgets(sel) && (!v.full ==> !v.truncated)
    ensures var r := FinishLine(sel, v, raw, final);
            if v.full then r.selected == v.selected && r.keptLines == v.keptLines && r.full
            else
              var a := AddHead(sel, v.selected, v.keptLines, false, First(raw, sel.maxBytes), |raw|, final);
              && r.selected == a.selected && r.keptLines == a.keptLines && r.full == a.full
              && r.truncated == a.truncated
  {
    hide AddHead, Selection.LineMatches;
    assert Offered(sel, v.lines, raw) == raw;
    UnfilteredMatches(sel, Content(raw));
  }

  lemma HeldHead(sel: Selection, v: View, whole: seq<byte>, raw: seq<byte>)
    requires HeadBudgets(sel) && HeadHolds(sel, v, whole) && OneLine(raw)
    ensures raw != [] && (!v.full ==> !v.truncated)
    ensures !v.full ==> v.selected == whole && |whole| < sel.maxBytes && v.keptLines == LineCount(whole) < sel.maxLines
    ensures v.keptLines == 0 <==> v.selected == []
  {
    hide LineCount, Shaped, Fits;
    CountsLines(v.selected);
  }

  lemma FullHeadHolds(sel: Selection, v: View, r: View, whole: seq<byte>, raw: seq<byte>)
    requires HeadHolds(sel, v, whole) && r.selected == v.selected && r.keptLines == v.keptLines && r.full
    requires Shut(sel, v.selected, whole + raw)
    ensures r.selected <= whole + raw && Fits(sel, r.selected) && r.keptLines == LineCount(r.selected)
    ensures HeadHolds(sel, r, whole + raw)
  {
    hide Shaped, LineCount, Fits, Shut;
  }

  lemma AddedHeadHolds(sel: Selection, held: seq<byte>, raw: seq<byte>, n: nat, r: View)
    requires n <= |raw| && raw != [] && r.selected == held + raw[..n] && r.keptLines == LineCount(r.selected)
    requires |r.selected| <= sel.maxBytes && r.keptLines <= sel.maxLines
    requires r.full <==> n < |raw| || |r.selected| >= sel.maxBytes || r.keptLines >= sel.maxLines
    requires n == |raw| ==> !r.truncated
    ensures r.selected <= held + raw && Fits(sel, r.selected)
    ensures Leaves(sel, held, raw, n) && raw[|raw| - 1] == NEWLINE ==> HeadHolds(sel, r, held + raw)
  {
    hide Shaped, LineCount, NoLonger;
    assert n == |raw| ==> r.selected[|r.selected| - 1] == raw[|raw| - 1];
  }

  lemma FullHead(sel: Selection, v: View, whole: seq<byte>, raw: seq<byte>)
    requires HeadBudgets(sel) && HeadHolds(sel, v, whole) && v.full && Shaped(whole)
    ensures Shut(sel, v.selected, whole + raw) && LongestStart(sel, v.selected, whole + raw) && whole != []
  {
    hide Shaped, LineCount, Fits, NoLonger;
    ShutStays(sel, v.selected, whole, raw);
    ShutIsLongest(sel, v.selected, whole + raw);
  }

  /** What the added line leaves is the longest start, unless it was cut in the middle of a code point. */
  lemma HeadAdded(sel: Selection, held: seq<byte>, raw: seq<byte>, n: nat, final: bool)
    requires n <= |raw| && raw != []
    requires if final && held == [] && CutsFirst(sel, raw) then n == sel.maxBytes else Leaves(sel, held, raw, n)
    ensures var x := held + raw[..n];
            && x <= held + raw && (n == |raw| ==> x == held + raw)
            && (LongestStart(sel, x, held + raw) <==> !(final && held == [] && CutsFirst(sel, raw)))
            && (Leaves(sel, held, raw, n) ==> Shaped(x) && (n < |raw| ==> Shut(sel, x, held + raw)))
            && (n == |raw| ==> x[|x| - 1] == raw[|raw| - 1])
  {
    hide Shaped, LineCount, Fits, NoLonger, SafeLength;
    var x := held + raw[..n];
    if held == [] && CutsFirst(sel, raw) && n == sel.maxBytes {
      assert x == raw[..n];
      if Shaped(x) { ShapedIsSafe(x); }
    }
  }

  lemma CountsLines(s: seq<byte>)
    ensures LineCount(s) == 0 <==> s == []
  {
    if s != [] { SomeLine(s); }
  }

  /** The complete lines of `s`. */
  function Complete(s: seq<byte>): (done: seq<byte>)
  {
    s[..|s| - |Pending(s)|]
  }

  lemma NothingHeld(sel: Selection)
    requires HeadBudgets(sel)
    ensures HeadHolds(sel, Through(sel, []), Complete([])) && Shaped(Complete([])) && WholeLines(Complete([]))
  {
  }

  lemma {:induction false} ThroughHeadText(sel: Selection, s: seq<byte>, more: seq<byte>)
    requires HeadBudgets(sel) && Shaped(s + more)
    ensures HeadHolds(sel, Through(sel, s), Complete(s)) && Shaped(Complete(s)) && WholeLines(Complete(s))
  {
    hide *;
    if s == [] {
      NothingHeld(sel);
    } else {
      var before, b := s[..|s| - 1], s[|s| - 1];
      assert before + [b] == s && before + ([b] + more) == s + more;
      ThroughHeadText(sel, before, [b] + more);
      HeadTextByte(sel, before, b, more);
    }
  }

  lemma CompleteByte(s: seq<byte>, b: byte)
    ensures Complete(s + [b]) == if b == NEWLINE then Complete(s) + (Pending(s) + [NEWLINE]) else Complete(s)
  {
    hide Pending;
    var t := s + [b];
    assert t[..|s|] == s;
    PendingIsLastLine(s);
    assert s == Complete(s) + Pending(s);
    PendingByte(s, b);
    if b == NEWLINE { assert t[..|t|] == t; }
  }

  lemma PendingByte(s: seq<byte>, b: byte)
    ensures Pending(s + [b]) == if b == NEWLINE then [] else Pending(s) + [b]
  {
    assert (s + [b])[..|s|] == s;
  }

  lemma HeadTextByte(sel: Selection, s: seq<byte>, b: byte, more: seq<byte>)
    requires HeadBudgets(sel) && Shaped(s + ([b] + more))
    requires HeadHolds(sel, Through(sel, s), Complete(s)) && Shaped(Complete(s)) && WholeLines(Complete(s))
    ensures var t := s + [b];
            HeadHolds(sel, Through(sel, t), Complete(t)) && Shaped(Complete(t)) && WholeLines(Complete(t))
  {
    hide *;
    ThroughByte(sel, s, b);
    CompleteByte(s, b);
    if b == NEWLINE {
      var line := Pending(s) + [NEWLINE];
      TextLineOf(s, [b] + more, line);
      PendingIsOneLine(s);
      FinishHeadText(sel, Through(sel, s), Complete(s), line, false);
      ShapedConcat(Complete(s), line);
      EndsInLine(Complete(s), line);
    }
  }

  lemma EndsInLine(done: seq<byte>, line: seq<byte>)
    requires line != [] && line[|line| - 1] == NEWLINE
    ensures WholeLines(done + line)
  {
  }

  /** Every line of well shaped text is well shaped. */
  lemma TextLineOf(s: seq<byte>, more: seq<byte>, raw: seq<byte>)
    requires Shaped(s + more)
    requires if more == [] then raw == Pending(s) && raw != [] else more[0] == NEWLINE && raw == Pending(s) + [NEWLINE]
    ensures Shaped(raw)
  {
    hide Shaped, Newlines, LeadingContinuations;
    WholeIsTextual(s + more);
    LineOfText(s, more, raw);
    if Newlines(s) == 0 {
      NoNewlines(s);
      PendingIsLastLine(s);
      assert raw == (s + more)[..|raw|] && raw[0] == (s + more)[0];
      ShapedStarts(s + more);
      assert raw[LeadingContinuations(raw)..] == raw;
    }
  }

  lemma ShapedStarts(s: seq<byte>)
    requires Shaped(s) && s != []
    ensures !IsContinuation(s[0])
  {
  }

  /** A head window keeps whole lines and code points within both budgets and counts their lines; it is the longest
      such start of the text, unless its only line is flushed with a code point across the byte budget. */
  lemma HeadTextIsLongest(sel: Selection, s: seq<byte>, final: bool)
    requires HeadBudgets(sel) && Shaped(s)
    ensures var v := Ended(sel, s, final);
            && v.selected <= s && Fits(sel, v.selected) && v.keptLines == LineCount(v.selected)
            && (LongestStart(sel, v.selected, s) <==> !(final && NEWLINE !in s && CutsFirst(sel, s)))
  {
    hide Shaped, Through, Pending, FinishLine, HeadBudgets, Fits, LineCount, NoLonger, SafeLength, WholeLines;
    assert s + [] == s;
    ThroughHeadText(sel, s, []);
    PendingIsLastLine(s);
    assert s == Complete(s) + Pending(s);
    if Pending(s) != [] {
      TextLineOf(s, [], Pending(s));
      PendingIsOneLine(s);
      FinishHeadText(sel, Through(sel, s), Complete(s), Pending(s), final);
      if Complete(s) != [] { assert s[|Complete(s)| - 1] == NEWLINE; }
    } else {
      AllComplete(sel, s);
    }
  }

  lemma AllComplete(sel: Selection, s: seq<byte>)
    requires HeadHolds(sel, Through(sel, s), s) && HeadBudgets(sel) && (s == [] || s[|s| - 1] == NEWLINE)
    ensures LongestStart(sel, Through(sel, s).selected, s) && (NEWLINE !in s ==> s == [])
  {
    hide Shaped, Through, Fits, LineCount, NoLonger;
    var x := Through(sel, s).selected;
    ShutIsLongest(sel, x, s);
  }
}
