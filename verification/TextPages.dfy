/**
 * Where a text page may end: every page of well shaped text resumes at the edge of a code point, but for one kind
 * of last line.
 */
module TextPages {
  import opened Bytes
  import opened Utf8
  import opened ByteBuffers
  import opened WindowSpec
  import opened WindowEnds
  import opened PagingSpec
  import opened LiteralMatching

  /** A page of the well shaped text `f`, entered at an edge. */
  ghost predicate TextEntered(sel: Selection, f: seq<byte>, base: nat)
  {
    Enters(sel, f, base) && !sel.preserveRawPageBytes && Shaped(f) && AtEdge(f, base + sel.initialLineSkipBytes)
  }

  /** Whatever was kept ends at an edge. */
  predicate KeptToEdge(f: seq<byte>, base: nat, v: View)
  {
    v.hasKept ==> 0 <= v.lastKept && AtEdge(f, base + v.lastKept)
  }

  /** A last line that is flushed into an empty page, with a code point across the byte budget. */
  predicate CutsLetter(sel: Selection, f: seq<byte>, first: nat)
  {
    first + sel.maxBytes < |f| && SafeLength(f[first..first + sel.maxBytes]) < sel.maxBytes
  }

  lemma SafeCutFrom(f: seq<byte>, first: nat, k: nat)
    requires Shaped(f) && first + k <= |f| && AtEdge(f, first)
    ensures var safe := SafeLength(f[first..first + k]);
            AtEdge(f, first + safe) && forall e :: first + safe < e <= first + k ==> !AtEdge(f, e)
  {
    hide Shaped, SafeLength;
    CutAtEdge(f, first);
    var rest := f[first..];
    assert rest[..k] == f[first..first + k];
    SafeIsLastEdge(rest, k);
    var safe := SafeLength(f[first..first + k]);
    assert first + safe < |f| ==> rest[safe] == f[first + safe];
    forall e | first + safe < e <= first + k ensures !AtEdge(f, e) {
      assert !AtEdge(rest, e - first);
      assert e < |f| && rest[e - first] == f[e];
    }
  }

  /** How much of an offered line a head window takes, and whether that is a cut at the bare budget. */
  lemma AddHeadFate(sel: Selection, held: seq<byte>, kept: nat, offered: seq<byte>, final: bool)
    returns (refused: bool, n: nat)
    requires |held| < sel.maxBytes && kept < sel.maxLines && !sel.preserveRawPageBytes
    requires (kept == 0 <==> held == []) && offered != []
    ensures var a := AddHead(sel, held, kept, false, First(offered, sel.maxBytes), |offered|, final);
            && n <= |offered| && (refused <==> a.fate.Refused?)
            && (refused ==> held != [])
            && (!refused ==> a.fate == if n < |offered| then Partial(n) else Whole)
            && (!refused ==> (a.truncated <==> n < |offered|))
            && (!refused && final && |offered| <= sel.maxBytes - |held| ==> n == |offered|)
            && (!refused && final && held == [] && sel.maxBytes < |offered| ==> n == sel.maxBytes)
            && (!refused && (!final || (held != [] && sel.maxBytes - |held| < |offered|)) ==>
                  n == SafeLength(offered[..Min(|offered|, sel.maxBytes - |held|)]))
            && (!refused ==>
                  && a.selected == held + offered[..n] && a.keptLines == kept + (if n == 0 then 0 else 1)
                  && (a.full <==> n == 0 || n < |offered| || |a.selected| >= sel.maxBytes || kept + 1 >= sel.maxLines))
            && (refused ==> sel.Filtering()) && (!refused ==> |held| + n <= sel.maxBytes)
  {
    hide SafeLength, Selection.Filtering;
    var line, remaining := First(offered, sel.maxBytes), sel.maxBytes - |held|;
    var proposed := First(line, remaining);
    assert proposed == offered[..Min(|offered|, remaining)];
    refused := sel.Filtering() && kept > 0 && |line| > remaining;
    n := if final && |proposed| == |line| then |proposed| else SafeLength(proposed);
    assert offered[..n] == proposed[..n];
    assert held + offered[..0] == held;
  }

  /** Where an added line leaves the end of what is kept: at an edge, but for the one exception. */
  lemma AddHeadEdge(
    sel: Selection, held: seq<byte>, kept: nat, f: seq<byte>, first: nat, next: nat, final: bool)
    requires |held| < sel.maxBytes && kept < sel.maxLines && !sel.preserveRawPageBytes
    requires (kept == 0 <==> held == []) && Shaped(f) && first < next <= |f| && AtEdge(f, first)
    requires final ==> next == |f|
    ensures var a := AddHead(sel, held, kept, false, First(f[first..next], sel.maxBytes), next - first, final);
            var end := if a.fate.Whole? then next else if a.fate.Partial? then first + a.fate.bytes else first;
            && first <= end <= next
            && (AtEdge(f, end) <==> !(final && held == [] && CutsLetter(sel, f, first)))
            && (final && held == [] && CutsLetter(sel, f, first) ==> !a.fate.Refused? && a.truncated)
  {
    hide SafeLength, Shaped, AddHead, First;
    var offered, remaining := f[first..next], sel.maxBytes - |held|;
    var refused, n := AddHeadFate(sel, held, kept, offered, final);
    var k := Min(next - first, remaining);
    assert offered[..k] == f[first..first + k];
    SafeCutFrom(f, first, k);
  }

  /** The one exception: the line passes, it is flushed at the end of the file, and nothing was kept before it. */
  ghost predicate FlushCuts(sel: Selection, f: seq<byte>, base: nat, done: nat, v: View)
    requires done <= |f|
  {
    && !v.full && v.selected == [] && sel.LineMatches(Content(f[done..]))
    && CutsLetter(sel, f, Max(done, base + sel.initialLineSkipBytes))
  }

  lemma FinishEdge(sel: Selection, f: seq<byte>, base: nat, done: nat, next: nat, v: View, final: bool)
    requires TextEntered(sel, f, base) && OnPage(sel, f, base, done, v) && AtEdge(f, done)
    requires NextPiece(sel, f, base, done, next, v, final) && (final ==> next == |f|)
    requires KeptToEdge(f, base, v)
    ensures var r := FinishLine(sel, v, f[done..next], final);
            && (KeptToEdge(f, base, r) <==> !(final && FlushCuts(sel, f, base, done, v)))
            && (final && FlushCuts(sel, f, base, done, v) ==> r.hasKept && r.truncated)
  {
    hide AddHead, Matched, Content, Selection.LineMatches, Shaped, IsLine, CutsLetter, AtEdge, Selection.Filtering;
    var raw, first := f[done..next], Max(done, base + sel.initialLineSkipBytes);
    assert Offered(sel, v.lines, raw) == f[first..next];
    assert next == |f| ==> raw == f[done..];
    if sel.LineMatches(Content(raw)) && !v.full {
      AddHeadEdge(sel, v.selected, v.keptLines, f, first, next, final);
    }
  }

  lemma DoneIsEdge(f: seq<byte>, base: nat, done: nat)
    requires Shaped(f) && base <= done <= |f| && AtEdge(f, base)
    requires done == base || done == |f| || f[done - 1] == NEWLINE
    ensures AtEdge(f, done)
  {
    if base < done < |f| {
      CutBehindNewline(f, done - 1);
      assert f[done..][0] == f[done];
    }
  }

  lemma BaseIsEdge(sel: Selection, f: seq<byte>, base: nat)
    requires TextEntered(sel, f, base)
    ensures AtEdge(f, base)
  {
    if sel.initialLineSkipBytes > 0 && 0 < base { DoneIsEdge(f, 0, base); }
  }

  lemma {:induction false} ThroughEdges(sel: Selection, f: seq<byte>, base: nat, p: nat)
    requires TextEntered(sel, f, base) && base <= p <= |f|
    ensures KeptToEdge(f, base, Through(sel, f[base..p]))
    decreases p
  {
    hide FinishLine, OnPage, Enters, NextPiece, Through, Finished, Shaped, AtEdge;
    if p == base {
      NothingFinished(sel, f, base);
    } else {
      ThroughEdges(sel, f, base, p - 1);
      OneByteEdges(sel, f, base, p - 1);
    }
  }

  lemma OneByteEdges(sel: Selection, f: seq<byte>, base: nat, p: nat)
    requires TextEntered(sel, f, base) && base <= p < |f| && KeptToEdge(f, base, Through(sel, f[base..p]))
    ensures KeptToEdge(f, base, Through(sel, f[base..p + 1]))
  {
    hide FinishLine, OnPage, Enters, NextPiece, Through, Pending, Shaped, AtEdge, KeptToEdge, Finished;
    var s := f[base..p];
    assert f[base..p + 1] == s + [f[p]];
    ThroughByte(sel, s, f[p]);
    if f[p] == NEWLINE {
      var done := Finished(f, base, p);
      LineFinished(sel, f, base, p, Through(sel, s));
      ThroughOnPage(sel, f, base, p);
      FinishedIsLineStart(f, base, p);
      BaseIsEdge(sel, f, base);
      DoneIsEdge(f, base, done);
      FinishEdge(sel, f, base, done, p + 1, Through(sel, s), false);
    }
  }

  /** Does the flush at the end of the file cut a code point? */
  ghost predicate EndCuts(sel: Selection, f: seq<byte>, base: nat)
    requires base <= |f|
  {
    var v := Through(sel, f[base..|f|]);
    Pending(f[base..|f|]) != [] && FlushCuts(sel, f, base, Finished(f, base, |f|), v)
  }

  lemma EndedEdges(sel: Selection, f: seq<byte>, base: nat, p: nat, final: bool)
    requires TextEntered(sel, f, base) && base < p <= |f| && (final ==> p == |f|)
    requires MayFlush(sel, f, base, p, |Through(sel, f[base..p]).selected|, final)
    ensures var r := Ended(sel, f[base..p], final);
            && (KeptToEdge(f, base, r) <==> !(final && EndCuts(sel, f, base)))
            && (final && EndCuts(sel, f, base) ==> r.hasKept && r.truncated)
  {
    hide FinishLine, OnPage, Enters, NextPiece, Through, Pending, Shaped, AtEdge, KeptToEdge, Finished, FlushCuts;
    hide MayFlush;
    var s, done := f[base..p], Finished(f, base, p);
    ThroughEdges(sel, f, base, p);
    ThroughOnPage(sel, f, base, p);
    FinishedIsLineStart(f, base, p);
    if Pending(s) != [] {
      BaseIsEdge(sel, f, base);
      DoneIsEdge(f, base, done);
      FlushIsPiece(sel, f, base, p, done, Through(sel, s), final);
      FinishEdge(sel, f, base, done, p, Through(sel, s), final);
    }
  }

  /** A page resumes at an edge exactly if what it kept ends at one. */
  lemma ResumeAtEdge(sel: Selection, f: seq<byte>, base: nat, done: nat, p: nat, v: View)
    requires TextEntered(sel, f, base) && OnPage(sel, f, base, done, v)
    requires base < done <= p <= |f| && (p == |f| ==> done == p)
    requires v.hasKept || f[done - 1] == NEWLINE || done == |f|
    requires !KeptToEdge(f, base, v) ==> v.truncated
    ensures AtEdge(f, Resume(v, base, p, |f|, p - done).0) <==> KeptToEdge(f, base, v)
  {
    hide Shaped, Matched;
    BaseIsEdge(sel, f, base);
    if f[done - 1] == NEWLINE || done == |f| { DoneIsEdge(f, base, done); }
  }

  // ---- the exception, read off the file ----

  /** The file ends in a line without a newline that passes, is the first to pass behind `offset`, and does not fit. */
  ghost predicate LastLineCut(sel: Selection, f: seq<byte>, base: nat, offset: nat)
    requires base <= offset <= |f|
  {
    var start := Max(LineStart(f, |f|), base);
    var first := Max(start, offset);
    && start < |f| && sel.LineMatches(Content(f[start..])) && Matched(sel, f, offset, first) == []
    && CutsLetter(sel, f, first)
  }

  /** The scan reaches the end of the file, and there cuts a code point. */
  ghost predicate SplitsLastLine(sel: Selection, f: seq<byte>, base: nat, offset: nat)
    requires base <= offset <= |f|
  {
    sel.Filtering() && |f| <= base + MAX_SCAN_BYTES && LastLineCut(sel, f, base, offset)
  }

  lemma LastStart(f: seq<byte>, base: nat)
    requires base <= |f|
    ensures Finished(f, base, |f|) == Max(LineStart(f, |f|), base)
  {
    var done := Finished(f, base, |f|);
    FinishedIsLineStart(f, base, |f|);
    assert f[..|f|] == f;
    PendingIsLastLine(f);
    var start := |f| - |Pending(f)|;
    forall i | start <= i < |f| ensures f[i] != NEWLINE { assert f[i] == Pending(f)[i - start]; }
  }

  /** Nothing is held exactly if nothing has passed. */
  lemma HeldIsMatched(sel: Selection, f: seq<byte>, base: nat, done: nat, v: View, x: nat)
    requires Enters(sel, f, base) && OnPage(sel, f, base, done, v)
    requires done <= x && base + sel.initialLineSkipBytes <= x <= |f|
    requires Max(done, base + sel.initialLineSkipBytes) == x || v.full
    ensures Matched(sel, f, base + sel.initialLineSkipBytes, x) == [] <==> !v.full && v.selected == []
  {
    hide Matched;
    var offset := base + sel.initialLineSkipBytes;
    if v.hasKept { MatchedSplit(sel, f, offset, base + v.lastKept, x); }
    else { HeldSoFar(sel, f, base, done, v); }
  }

  lemma EndCutsIs(sel: Selection, f: seq<byte>, base: nat)
    requires TextEntered(sel, f, base)
    ensures EndCuts(sel, f, base) <==> LastLineCut(sel, f, base, base + sel.initialLineSkipBytes)
  {
    hide Through, Pending, Matched, OnPage, Content, Selection.LineMatches, CutsLetter, LineStart, Finished, Shaped;
    var v, done := Through(sel, f[base..|f|]), Finished(f, base, |f|);
    LastStart(f, base);
    ThroughOnPage(sel, f, base, |f|);
    FinishedIsLineStart(f, base, |f|);
    var x := Max(done, base + sel.initialLineSkipBytes);
    HeldIsMatched(sel, f, base, done, v, x);
  }

  /** A page that is full before the end of the file has kept something before the last line. */
  lemma FullIsNotCut(sel: Selection, f: seq<byte>, base: nat, p: nat)
    requires TextEntered(sel, f, base) && base <= p < |f| && Through(sel, f[base..p]).full
    ensures !LastLineCut(sel, f, base, base + sel.initialLineSkipBytes)
  {
    hide Through, Pending, Matched, OnPage, Content, Selection.LineMatches, CutsLetter, Finished, Shaped, Enters;
    var v, done := Through(sel, f[base..p]), Finished(f, base, p);
    ThroughOnPage(sel, f, base, p);
    FinishedIsLineStart(f, base, p);
    LaterLineStart(f, done, base);
    var x := Max(Max(LineStart(f, |f|), base), base + sel.initialLineSkipBytes);
    EntersBefore(sel, f, base);
    HeldIsMatched(sel, f, base, done, v, x);
  }

  lemma EntersBefore(sel: Selection, f: seq<byte>, base: nat)
    requires Enters(sel, f, base)
    ensures base + sel.initialLineSkipBytes < |f|
  {
  }

  lemma LaterLineStart(f: seq<byte>, done: nat, base: nat)
    requires base <= done <= |f| && (done == base || f[done - 1] == NEWLINE)
    ensures done <= Max(LineStart(f, |f|), base)
  {
    assert f[..|f|] == f;
    PendingIsLastLine(f);
    var start := |f| - |Pending(f)|;
    forall i | start <= i < |f| ensures f[i] != NEWLINE { assert f[i] == Pending(f)[i - start]; }
  }

  // ---- a file whose text page ends inside a letter ----

  /** `n` letters of two bytes. */
  function Letters(n: nat): (s: seq<byte>)
    ensures |s| == 2 * n && NEWLINE !in s
  {
    if n == 0 then [] else [0xc3, 0xa9] + Letters(n - 1)
  }

  lemma {:induction false} LettersAre(n: nat)
    ensures Shaped(Letters(n)) && forall i :: 0 <= i < n ==> Letters(n)[2 * i] == 0xc3
  {
    if n > 0 {
      LettersAre(n - 1);
      var s := Letters(n);
      assert s[2..] == Letters(n - 1);
      forall i | 0 <= i < n ensures s[2 * i] == 0xc3 {
        if i > 0 { assert s[2 * i] == Letters(n - 1)[2 * (i - 1)]; }
      }
    }
  }

  /** The letter `a`, then more letters than the window has room for: with a filter for `a` the page ends inside the
      last of them. */
  lemma LetterIsCut(sel: Selection, n: nat)
    requires sel.includeFilter == [0x61] && sel.excludeFilter == [] && 2 <= n
    requires sel.maxBytes == 2 * n < MAX_SCAN_BYTES
    ensures var f := [0x61] + Letters(n);
            Shaped(f) && AtEdge(f, 0) && |f| == sel.maxBytes + 1 && SplitsLastLine(sel, f, 0, 0)
  {
    hide Matched, Shaped, Letters, SafeLength;
    var f := [0x61] + Letters(n);
    LettersAre(n);
    LetterIsShaped();
    ShapedConcat([0x61], Letters(n));
    assert f[2 * n - 1] == Letters(n)[2 * (n - 1)];
    LeadIsUnsafe(f[..2 * n]);
    NoNewlines(f);
    LineStartsAtOnce(f);
    FirstByteOccurs(sel, f);
    NothingMatched(sel, f, 0);
    assert f[0..] == f && f[0..2 * n] == f[..2 * n];
  }

  lemma LetterIsShaped()
    ensures Shaped([0x61])
  {
    assert [0x61][1..] == [];
  }

  lemma LeadIsUnsafe(s: seq<byte>)
    requires s != [] && s[|s| - 1] == 0xc3
    ensures SafeLength(s) < |s|
  {
    LeadIndexUnique(s, |s| - 1);
  }

  lemma LineStartsAtOnce(f: seq<byte>)
    requires NEWLINE !in f
    ensures LineStart(f, |f|) == 0 && Content(f) == f
  {
    assert f[..|f|] == f;
    PendingIsLastLine(f);
  }

  lemma FirstByteOccurs(sel: Selection, f: seq<byte>)
    requires sel.includeFilter == [0x61] && sel.excludeFilter == [] && f != [] && f[0] == 0x61
    ensures sel.LineMatches(f)
  {
    var needle, text := Fold(sel.includeFilter, sel.ignoreCase), Fold(f, sel.ignoreCase);
    assert needle == text[..1];
    assert OccursAt(needle, text, 0);
  }
}
