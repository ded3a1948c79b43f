/**
 * What one page of a retained file should return, stated on byte positions of
 * the whole file, and why a head window delivers exactly that.
 */
module PagingSpec {
  import opened Bytes
  import opened Utf8
  import opened ByteBuffers
  import opened WindowSpec

  // ---- lines of a file, by position ----

  /** One synchronous read is capped. */
  const MAX_SCAN_BYTES := 4 * 1024 * 1024

  function LineStart(f: seq<byte>, i: nat): (n: nat)
    requires i <= |f|
    ensures n <= i
  {
    i - |Pending(f[..i])|
  }

  function LineEnd(f: seq<byte>, i: nat): (n: nat)
    requires i <= |f|
    ensures i <= n <= |f|
    decreases |f| - i
  {
    if i == |f| then i else if f[i] == NEWLINE then i + 1 else LineEnd(f, i + 1)
  }

  /** `f[start..end]` is one logical line. */
  predicate IsLine(f: seq<byte>, start: nat, end: nat)
  {
    && start < end <= |f|
    && (start == 0 || f[start - 1] == NEWLINE)
    && (forall i :: start <= i < end - 1 ==> f[i] != NEWLINE)
    && (end == |f| || f[end - 1] == NEWLINE)
  }

  lemma {:induction false} PendingFrom(s: seq<byte>, start: nat)
    requires start <= |s| && (start == 0 || s[start - 1] == NEWLINE)
    requires forall i :: start <= i < |s| ==> s[i] != NEWLINE
    ensures Pending(s) == s[start..]
  {
    if start < |s| {
      PendingFrom(s[..|s| - 1], start);
      assert s[start..] == s[..|s| - 1][start..] + [s[|s| - 1]];
    }
  }

  lemma {:induction false} EndOfLine(f: seq<byte>, start: nat, end: nat, i: nat)
    requires IsLine(f, start, end) && start <= i < end
    ensures LineEnd(f, i) == end
    decreases end - i
  {
    if i < end - 1 { EndOfLine(f, start, end, i + 1); }
    else if end < |f| {}
    else if f[i] != NEWLINE { assert LineEnd(f, i + 1) == |f|; }
  }

  lemma LineAt(f: seq<byte>, start: nat, end: nat, i: nat)
    requires IsLine(f, start, end) && start <= i < end
    ensures LineStart(f, i) == start && LineEnd(f, i) == end
  {
    EndOfLine(f, start, end, i);
    PendingFrom(f[..i], start);
  }

  /** The line that holds position `i`. */
  lemma EveryPositionHasALine(f: seq<byte>, i: nat)
    requires i < |f|
    ensures IsLine(f, LineStart(f, i), LineEnd(f, i))
  {
    var start, end := LineStart(f, i), LineEnd(f, i);
    PendingIsLastLine(f[..i]);
    assert f[..i][start..] == Pending(f[..i]);
    forall k | start <= k < i ensures f[k] != NEWLINE { assert f[k] == Pending(f[..i])[k - start]; }
    LineEndStops(f, i);
  }

  lemma {:induction false} LineEndStops(f: seq<byte>, i: nat)
    requires i < |f|
    ensures var end := LineEnd(f, i);
            && i < end && (forall k :: i <= k < end - 1 ==> f[k] != NEWLINE) && (end == |f| || f[end - 1] == NEWLINE)
    decreases |f| - i
  {
    if f[i] != NEWLINE && i + 1 < |f| { LineEndStops(f, i + 1); }
  }

  // ---- the bytes a filtered read selects ----

  /** Position `i` belongs to a line that passes the filters. */
  ghost predicate Selects(sel: Selection, f: seq<byte>, i: nat)
    requires i < |f|
  {
    sel.LineMatches(Content(f[LineStart(f, i)..LineEnd(f, i)]))
  }

  /** The selected bytes of `f` between two positions. */
  ghost function Matched(sel: Selection, f: seq<byte>, a: nat, b: nat): seq<byte>
    requires a <= b <= |f|
    decreases b
  {
    if a == b then []
    else Matched(sel, f, a, b - 1) + (if Selects(sel, f, b - 1) then [f[b - 1]] else [])
  }

  lemma {:induction false} MatchedSplit(sel: Selection, f: seq<byte>, a: nat, b: nat, c: nat)
    requires a <= b <= c <= |f|
    ensures Matched(sel, f, a, c) == Matched(sel, f, a, b) + Matched(sel, f, b, c)
    decreases c
  {
    hide Selects;
    if b == c {
      assert Matched(sel, f, a, b) + [] == Matched(sel, f, a, b);
    } else { MatchedSplit(sel, f, a, b, c - 1); }
  }

  lemma MatchedByte(sel: Selection, f: seq<byte>, start: nat, end: nat, a: nat, b: nat)
    requires IsLine(f, start, end) && start <= a < b <= end
    ensures Matched(sel, f, a, b) ==
            Matched(sel, f, a, b - 1) + (if sel.LineMatches(Content(f[start..end])) then [f[b - 1]] else [])
  {
    hide Selection.LineMatches, Content, LineStart, LineEnd, IsLine;
    LineAt(f, start, end, b - 1);
  }

  lemma {:induction false} MatchedInLine(sel: Selection, f: seq<byte>, start: nat, end: nat, a: nat, b: nat)
    requires IsLine(f, start, end) && start <= a <= b <= end
    ensures Matched(sel, f, a, b) == if sel.LineMatches(Content(f[start..end])) then f[a..b] else []
    decreases b
  {
    hide Selection.LineMatches, Content, Matched;
    if a < b {
      MatchedInLine(sel, f, start, end, a, b - 1);
      MatchedByte(sel, f, start, end, a, b);
      assert f[a..b] == f[a..b - 1] + [f[b - 1]];
    } else {
      NothingMatched(sel, f, a);
      assert f[a..b] == [];
    }
  }

  lemma {:induction false} MatchedUnfiltered(sel: Selection, f: seq<byte>, a: nat, b: nat)
    requires !sel.Filtering() && a <= b <= |f|
    ensures Matched(sel, f, a, b) == f[a..b]
    decreases b
  {
    hide LineStart, LineEnd, Content;
    if a < b { MatchedUnfiltered(sel, f, a, b - 1); } else { assert f[a..b] == []; }
  }

  /** Where a page is entered does not change which lines pass. */
  lemma {:induction false} MatchedAnywhere(sel: Selection, f: seq<byte>, a: nat, b: nat, skip: nat)
    requires a <= b <= |f|
    ensures Matched(sel.(initialLineSkipBytes := skip), f, a, b) == Matched(sel, f, a, b)
    decreases b
  {
    hide LineStart, LineEnd, Content;
    if a < b { MatchedAnywhere(sel, f, a, b - 1, skip); }
  }

  /** The passing lines of a file, cut at its newlines one after the other. */
  ghost function PassingLines(sel: Selection, f: seq<byte>): seq<byte>
    decreases |f|
  {
    if f == [] then []
    else
      var n := FirstLineLength(f);
      (if sel.LineMatches(Content(f[..n])) then f[..n] else []) + PassingLines(sel, f[n..])
  }

  /** The selection by positions is the list of passing lines, whatever the file. */
  lemma {:induction false} MatchedIsPassingLines(sel: Selection, f: seq<byte>, start: nat)
    requires start <= |f| && (start == 0 || start == |f| || f[start - 1] == NEWLINE)
    ensures Matched(sel, f, start, |f|) == PassingLines(sel, f[start..])
    decreases |f| - start
  {
    hide Selection.LineMatches, Content, Matched, PassingLines;
    var rest := f[start..];
    PassingLinesStep(sel, rest);
    if start == |f| {
      NothingMatched(sel, f, |f|);
    } else {
      var n := FirstLineLength(rest);
      FirstLineIsLine(f, start);
      MatchedInLine(sel, f, start, start + n, start, start + n);
      MatchedSplit(sel, f, start, start + n, |f|);
      MatchedIsPassingLines(sel, f, start + n);
      assert rest[..n] == f[start..start + n] && rest[n..] == f[start + n..];
    }
  }

  lemma PassingLinesStep(sel: Selection, f: seq<byte>)
    ensures f == [] ==> PassingLines(sel, f) == []
    ensures f != [] ==>
              var n := FirstLineLength(f);
              PassingLines(sel, f) ==
              (if sel.LineMatches(Content(f[..n])) then f[..n] else []) + PassingLines(sel, f[n..])
  {
    hide Selection.LineMatches, Content;
  }

  lemma FirstLineIsLine(f: seq<byte>, start: nat)
    requires start < |f| && (start == 0 || f[start - 1] == NEWLINE)
    ensures var n := FirstLineLength(f[start..]);
            IsLine(f, start, start + n) && (start + n == |f| || f[start + n - 1] == NEWLINE)
  {
    var n := FirstLineLength(f[start..]);
    forall i | start <= i < start + n - 1 ensures f[i] != NEWLINE { assert f[i] == f[start..][i - start]; }
  }

  lemma NothingMatched(sel: Selection, f: seq<byte>, a: nat)
    requires a <= |f|
    ensures Matched(sel, f, a, a) == []
  {
  }

  // ---- one head window over the file ----

  /** How much of one offered line a head window takes. */
  lemma AddHeadTakes(sel: Selection, held: seq<byte>, kept: nat, offered: seq<byte>, final: bool) returns (n: nat)
    requires 4 <= sel.maxBytes && |held| < sel.maxBytes && kept < sel.maxLines
    requires (kept == 0 <==> held == []) && offered != []
    requires offered[|offered| - 1] == NEWLINE || final || sel.maxBytes - |held| <= |offered|
    requires sel.Filtering() ==> offered[|offered| - 1] == NEWLINE || final
    ensures var a := AddHead(sel, held, kept, false, First(offered, sel.maxBytes), |offered|, final);
            && n <= |offered|
            && a.selected == held + offered[..n]
            && (a.fate == Refused ==> n == 0)
            && (a.fate == Whole ==> n == |offered|)
            && (a.fate.Partial? ==> a.fate.bytes == n && n < |offered|)
            && (n == 0 ==> kept > 0 && a.full && a.truncated && a.keptLines == kept)
            && (0 < n ==> a.keptLines == kept + 1)
            && (a.full || (n == |offered| && |a.selected| < sel.maxBytes && a.keptLines < sel.maxLines))
            && (!a.truncated ==> n == |offered|)
            && (!a.full ==> !a.truncated)
            && |a.selected| <= sel.maxBytes
  {
    hide SafeLength, Selection.Filtering;
    var line := First(offered, sel.maxBytes);
    var remaining := sel.maxBytes - |held|;
    if sel.Filtering() && kept > 0 && |line| > remaining {
      n := 0;
    } else {
      var proposed := First(line, remaining);
      assert proposed == First(offered, remaining);
      n := if sel.preserveRawPageBytes || (final && |proposed| == |line|) then |proposed| else SafeLength(proposed);
      SafeEnough(offered, remaining);
      assert offered[..n] == proposed[..n];
    }
  }

  lemma SafeEnough(offered: seq<byte>, remaining: nat)
    requires offered != [] && 0 < remaining
    ensures var proposed := First(offered, remaining);
            && SafeLength(proposed) <= |proposed| <= SafeLength(proposed) + 3
            && (offered[|offered| - 1] == NEWLINE && |offered| <= remaining ==> SafeLength(proposed) == |offered|)
  {
    if |offered| <= remaining {
      assert First(offered, remaining) == offered;
      if offered[|offered| - 1] == NEWLINE { NewlineEndsSafely(offered); }
    }
  }

  /** A page entered at `base + skip`: the filter sees whole lines, so `base` starts one. */
  ghost predicate Enters(sel: Selection, f: seq<byte>, base: nat)
  {
    var offset := base + sel.initialLineSkipBytes;
    && offset < |f| && sel.mode == Head && 4 <= sel.maxBytes && 0 < sel.maxLines
    && (sel.Filtering() ==> (base == 0 || f[base - 1] == NEWLINE))
    && (forall i :: base <= i < offset ==> f[i] != NEWLINE)
    && (!sel.Filtering() ==> sel.initialLineSkipBytes == 0)
  }

  /** What the window holds once the lines before `done` are finished. */
  ghost predicate OnPage(sel: Selection, f: seq<byte>, base: nat, done: nat, v: View)
    requires Enters(sel, f, base)
  {
    var offset := base + sel.initialLineSkipBytes;
    && base <= done <= |f| && v.completed == done - base
    && (v.lines == 0 <==> done == base) && (done == base || offset < done)
    && |v.selected| <= sel.maxBytes
    && (v.keptLines == 0 <==> v.selected == []) && (0 < v.keptLines <==> v.hasKept)
    && (!v.hasKept ==> v.selected == [] && !v.full && !v.truncated)
    && (v.hasKept ==> offset < base + v.lastKept <= done && v.selected == Matched(sel, f, offset, base + v.lastKept))
    && (!v.full ==> !v.truncated && |v.selected| < sel.maxBytes && v.keptLines < sel.maxLines)
    && (!v.truncated && offset < done ==> v.selected == Matched(sel, f, offset, done))
  }

  /** `f[done..next]` is what the window treats as one line. */
  ghost predicate NextPiece(sel: Selection, f: seq<byte>, base: nat, done: nat, next: nat, v: View, final: bool)
  {
    && base <= done < next <= |f| && base + sel.initialLineSkipBytes < next
    && (sel.Filtering() ==> IsLine(f, done, next) && (f[next - 1] == NEWLINE || final))
    && (f[next - 1] == NEWLINE || final || sel.maxBytes <= |v.selected| + next - done)
  }

  /** The bytes this piece adds to the selection. */
  lemma PieceMatched(sel: Selection, f: seq<byte>, base: nat, done: nat, next: nat, v: View, final: bool, n: nat)
    requires Enters(sel, f, base) && NextPiece(sel, f, base, done, next, v, final)
    requires var first := Max(done, base + sel.initialLineSkipBytes); first < next && first + n <= next
    ensures var first := Max(done, base + sel.initialLineSkipBytes);
            Matched(sel, f, first, first + n) ==
            if sel.LineMatches(Content(f[done..next])) then f[first..first + n] else []
  {
    hide Matched, Content;
    var first := Max(done, base + sel.initialLineSkipBytes);
    if sel.Filtering() { MatchedInLine(sel, f, done, next, first, first + n); }
    else { MatchedUnfiltered(sel, f, first, first + n); }
  }

  lemma HeldSoFar(sel: Selection, f: seq<byte>, base: nat, done: nat, v: View)
    requires Enters(sel, f, base) && OnPage(sel, f, base, done, v) && !v.truncated
    ensures var offset := base + sel.initialLineSkipBytes;
            v.selected == Matched(sel, f, offset, Max(done, offset))
  {
    hide Selects;
  }

  /** A line the filter refuses, or one that comes after the page is full. */
  lemma PassOver(sel: Selection, f: seq<byte>, base: nat, done: nat, next: nat, v: View, final: bool)
    requires Enters(sel, f, base) && OnPage(sel, f, base, done, v)
    requires NextPiece(sel, f, base, done, next, v, final)
    requires sel.LineMatches(Content(f[done..next])) ==> v.full
    ensures OnPage(sel, f, base, next, FinishLine(sel, v, f[done..next], final))
  {
    hide Matched, Content, Selection.LineMatches, AddHead, IsLine, Selection.Filtering;
    var offset := base + sel.initialLineSkipBytes;
    var first := Max(done, offset);
    if !v.truncated {
      HeldSoFar(sel, f, base, done, v);
      PieceMatched(sel, f, base, done, next, v, final, next - first);
      MatchedSplit(sel, f, offset, first, next);
    }
  }

  lemma FinishTakes(sel: Selection, v: View, raw: seq<byte>, final: bool) returns (n: nat)
    requires sel.mode == Head && !v.full && sel.LineMatches(Content(raw))
    requires 4 <= sel.maxBytes && |v.selected| < sel.maxBytes && v.keptLines < sel.maxLines
    requires !v.truncated && (v.keptLines == 0 <==> v.selected == []) && (0 < v.keptLines ==> v.hasKept)
    requires var offered := Offered(sel, v.lines, raw);
             && offered != []
             && (offered[|offered| - 1] == NEWLINE || final || sel.maxBytes - |v.selected| <= |offered|)
             && (sel.Filtering() ==> offered[|offered| - 1] == NEWLINE || final)
    ensures var offered := Offered(sel, v.lines, raw);
            var r := FinishLine(sel, v, raw, final);
            && n <= |offered| && r.selected == v.selected + offered[..n] && |r.selected| <= sel.maxBytes
            && r.completed == v.completed + |raw| && r.lines == v.lines + 1
            && r.hasKept && (r.keptLines == 0 <==> r.selected == [])
            && (r.lastKept == v.completed + (|raw| - |offered|) + n || (n == 0 && r.lastKept == v.lastKept))
            && (n == 0 ==> v.keptLines > 0 && r.truncated)
            && (r.full || (n == |offered| && |r.selected| < sel.maxBytes && r.keptLines < sel.maxLines))
            && (!r.truncated ==> n == |offered|) && (!r.full ==> !r.truncated)
  {
    hide AddHead, Content, Selection.LineMatches, Selection.Filtering, Offered;
    n := AddHeadTakes(sel, v.selected, v.keptLines, Offered(sel, v.lines, raw), final);
  }

  lemma TakeOver(sel: Selection, f: seq<byte>, base: nat, done: nat, next: nat, v: View, final: bool)
    requires Enters(sel, f, base) && OnPage(sel, f, base, done, v)
    requires NextPiece(sel, f, base, done, next, v, final)
    requires sel.LineMatches(Content(f[done..next])) && !v.full
    ensures OnPage(sel, f, base, next, FinishLine(sel, v, f[done..next], final))
  {
    hide Matched, Content, Selection.LineMatches, FinishLine, IsLine, Selection.Filtering, Selects;
    var first := Max(done, base + sel.initialLineSkipBytes);
    var n := TakesPiece(sel, f, base, done, next, v, final);
    HeldSoFar(sel, f, base, done, v);
    TakenIsMatched(sel, f, base, done, next, v, final, n);
    hide NextPiece;
    assert FinishLine(sel, v, f[done..next], final).selected ==
           Matched(sel, f, base + sel.initialLineSkipBytes, first + n);
    if n == 0 { KeptBefore(sel, f, base, done, v); }
  }

  /** How much of the piece is taken, and where that leaves the end of what is kept. */
  lemma TakesPiece(sel: Selection, f: seq<byte>, base: nat, done: nat, next: nat, v: View, final: bool)
    returns (n: nat)
    requires Enters(sel, f, base) && OnPage(sel, f, base, done, v)
    requires NextPiece(sel, f, base, done, next, v, final)
    requires sel.LineMatches(Content(f[done..next])) && !v.full
    ensures var first, r := Max(done, base + sel.initialLineSkipBytes), FinishLine(sel, v, f[done..next], final);
            && first + n <= next && r.selected == v.selected + f[first..first + n] && |r.selected| <= sel.maxBytes
            && r.completed == next - base && r.lines == v.lines + 1
            && r.hasKept && (r.keptLines == 0 <==> r.selected == [])
            && (r.lastKept == first + n - base || (n == 0 && r.lastKept == v.lastKept))
            && (n == 0 ==> v.keptLines > 0 && r.truncated)
            && (r.full || (n == next - first && |r.selected| < sel.maxBytes && r.keptLines < sel.maxLines))
            && (!r.truncated ==> n == next - first) && (!r.full ==> !r.truncated)
  {
    hide Matched, Content, Selection.LineMatches, FinishLine, IsLine, Selection.Filtering, Selects;
    var first, raw := Max(done, base + sel.initialLineSkipBytes), f[done..next];
    assert Offered(sel, v.lines, raw) == f[first..next];
    n := FinishTakes(sel, v, raw, final);
    assert f[first..next][..n] == f[first..first + n];
  }

  lemma TakenIsMatched(sel: Selection, f: seq<byte>, base: nat, done: nat, next: nat, v: View, final: bool, n: nat)
    requires Enters(sel, f, base) && NextPiece(sel, f, base, done, next, v, final)
    requires sel.LineMatches(Content(f[done..next]))
    requires var first := Max(done, base + sel.initialLineSkipBytes); first + n <= next
    ensures var offset := base + sel.initialLineSkipBytes;
            var first := Max(done, offset);
            Matched(sel, f, offset, first + n) == Matched(sel, f, offset, first) + f[first..first + n]
  {
    hide Matched, Content, Selection.LineMatches, IsLine;
    var offset := base + sel.initialLineSkipBytes;
    var first := Max(done, offset);
    PieceMatched(sel, f, base, done, next, v, final, n);
    MatchedSplit(sel, f, offset, first, first + n);
  }

  lemma KeptBefore(sel: Selection, f: seq<byte>, base: nat, done: nat, v: View)
    requires Enters(sel, f, base) && OnPage(sel, f, base, done, v) && v.hasKept
    ensures var offset := base + sel.initialLineSkipBytes;
            offset < base + v.lastKept <= done && v.selected == Matched(sel, f, offset, base + v.lastKept)
  {
  }

  lemma FinishOnPage(sel: Selection, f: seq<byte>, base: nat, done: nat, next: nat, v: View, final: bool)
    requires Enters(sel, f, base) && OnPage(sel, f, base, done, v)
    requires NextPiece(sel, f, base, done, next, v, final)
    ensures OnPage(sel, f, base, next, FinishLine(sel, v, f[done..next], final))
  {
    hide FinishLine, Content, OnPage;
    if sel.LineMatches(Content(f[done..next])) && !v.full { TakeOver(sel, f, base, done, next, v, final); }
    else { PassOver(sel, f, base, done, next, v, final); }
  }

  // ---- a scan of the file from `base` to `p` ----

  lemma NothingYet(sel: Selection, f: seq<byte>, base: nat)
    requires Enters(sel, f, base)
    ensures OnPage(sel, f, base, base, Empty())
  {
  }

  /** Where the finished lines of `f[base..p]` end. */
  function Finished(f: seq<byte>, base: nat, p: nat): (n: nat)
    requires base <= p <= |f|
    ensures base <= n <= p
  {
    p - |Pending(f[base..p])|
  }

  lemma FinishedIsLineStart(f: seq<byte>, base: nat, p: nat)
    requires base <= p <= |f|
    ensures var done := Finished(f, base, p);
            && f[done..p] == Pending(f[base..p])
            && (forall i :: done <= i < p ==> f[i] != NEWLINE)
            && (done == base || f[done - 1] == NEWLINE)
  {
    var s, done := f[base..p], Finished(f, base, p);
    PendingIsLastLine(s);
    assert f[done..p] == s[done - base..];
    forall i | done <= i < p ensures f[i] != NEWLINE { assert f[i] == Pending(s)[i - done]; }
  }

  lemma LineFinished(sel: Selection, f: seq<byte>, base: nat, p: nat, v: View)
    requires Enters(sel, f, base) && base <= p < |f| && f[p] == NEWLINE
    ensures NextPiece(sel, f, base, Finished(f, base, p), p + 1, v, false)
    ensures f[Finished(f, base, p)..p + 1] == Pending(f[base..p]) + [NEWLINE]
  {
    hide Finished, Pending;
    FinishedIsLineStart(f, base, p);
    var done := Finished(f, base, p);
    assert f[done..p + 1] == f[done..p] + [f[p]];
  }

  lemma {:induction false} ThroughOnPage(sel: Selection, f: seq<byte>, base: nat, p: nat)
    requires Enters(sel, f, base) && base <= p <= |f|
    ensures OnPage(sel, f, base, Finished(f, base, p), Through(sel, f[base..p]))
    decreases p
  {
    hide FinishLine, OnPage, Enters, NextPiece, Through, Finished;
    if p == base {
      NothingYet(sel, f, base);
      NothingFinished(sel, f, base);
    } else {
      ThroughOnPage(sel, f, base, p - 1);
      OneByteOnPage(sel, f, base, p - 1);
    }
  }

  lemma NothingFinished(sel: Selection, f: seq<byte>, base: nat)
    requires base <= |f|
    ensures Finished(f, base, base) == base && Through(sel, f[base..base]) == Empty()
  {
  }

  lemma OneByteOnPage(sel: Selection, f: seq<byte>, base: nat, p: nat)
    requires Enters(sel, f, base) && base <= p < |f|
    requires OnPage(sel, f, base, Finished(f, base, p), Through(sel, f[base..p]))
    ensures OnPage(sel, f, base, Finished(f, base, p + 1), Through(sel, f[base..p + 1]))
  {
    hide FinishLine, OnPage, Enters, NextPiece, Through, Pending;
    var s := f[base..p];
    assert f[base..p + 1] == s + [f[p]];
    ThroughByte(sel, s, f[p]);
    if f[p] == NEWLINE {
      LineFinished(sel, f, base, p, Through(sel, s));
      FinishOnPage(sel, f, base, Finished(f, base, p), p + 1, Through(sel, s), false);
    }
  }

  /** A flush at the end of the file, or of an unfiltered page that is already full. */
  predicate MayFlush(sel: Selection, f: seq<byte>, base: nat, p: nat, held: nat, final: bool)
    requires base <= p <= |f|
  {
    (p == |f| && final) || (!sel.Filtering() && sel.maxBytes - held <= |Pending(f[base..p])|)
  }

  lemma EndedOnPage(sel: Selection, f: seq<byte>, base: nat, p: nat, final: bool)
    requires Enters(sel, f, base) && base < p <= |f|
    requires MayFlush(sel, f, base, p, |Through(sel, f[base..p]).selected|, final)
    ensures OnPage(sel, f, base, p, Ended(sel, f[base..p], final))
  {
    hide FinishLine, OnPage, Through, IsLine, Pending;
    var s, done := f[base..p], Finished(f, base, p);
    ThroughOnPage(sel, f, base, p);
    FinishedIsLineStart(f, base, p);
    if Pending(s) != [] {
      FlushIsPiece(sel, f, base, p, done, Through(sel, s), final);
      FinishOnPage(sel, f, base, done, p, Through(sel, s), final);
    }
  }

  lemma FlushIsPiece(sel: Selection, f: seq<byte>, base: nat, p: nat, done: nat, v: View, final: bool)
    requires Enters(sel, f, base) && base < p <= |f| && MayFlush(sel, f, base, p, |v.selected|, final)
    requires done == Finished(f, base, p) < p
    ensures NextPiece(sel, f, base, done, p, v, final)
  {
    hide Pending;
    FinishedIsLineStart(f, base, p);
  }

  /** Flushing an unfiltered page in the middle of a line happens only when it fills the page. */
  lemma FlushFills(sel: Selection, f: seq<byte>, base: nat, p: nat)
    requires Enters(sel, f, base) && base < p <= |f| && !sel.Filtering() && Pending(f[base..p]) != []
    requires MayFlush(sel, f, base, p, |Through(sel, f[base..p]).selected|, false)
    ensures Ended(sel, f[base..p], false).full
  {
    hide Through, Pending;
    var s := f[base..p];
    ThroughOnPage(sel, f, base, p);
    var v := Through(sel, s);
    if v.full {
      FullStays(sel, v, Pending(s), false);
    } else {
      hide FinishLine;
      assert Offered(sel, v.lines, Pending(s)) == Pending(s);
      var n := FinishTakes(sel, v, Pending(s), false);
    }
  }

  lemma FullStays(sel: Selection, v: View, raw: seq<byte>, final: bool)
    requires v.full
    ensures FinishLine(sel, v, raw, final).full
  {
  }

  /** Where the next page starts, and whether the file is exhausted. */
  function Resume(v: View, base: nat, p: nat, size: nat, pending: nat): (int, bool)
  {
    var reachedEnd := p >= size;
    var relative :=
      if reachedEnd && !v.truncated && pending == 0 then p - base
      else if v.hasKept then v.lastKept
      else v.completed;
    var next := base + relative;
    (next, reachedEnd && pending == 0 && (!v.truncated || next >= size))
  }

  /** One page: exactly the selected bytes between where it starts and where it says to resume. */
  ghost predicate ExactPage(sel: Selection, f: seq<byte>, offset: nat, page: seq<byte>, next: int, eof: bool)
    requires offset <= |f|
  {
    && offset < next <= |f|
    && page == Matched(sel, f, offset, next)
    && (eof <==> next == |f|)
  }

  lemma PageIsExact(sel: Selection, f: seq<byte>, base: nat, done: nat, p: nat, v: View)
    requires Enters(sel, f, base) && OnPage(sel, f, base, done, v)
    requires base < done <= p <= |f| && (p == |f| ==> done == p)
    ensures var (next, eof) := Resume(v, base, p, |f|, p - done);
            ExactPage(sel, f, base + sel.initialLineSkipBytes, v.selected, next, eof)
  {
    hide Matched;
  }
}
