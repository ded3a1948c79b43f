/**
 * Paged reads of a retained stream: aligning a filtered continuation, scanning
 * with one bounded window, and saying where the next page resumes.
 */
module RetainedReads {
  import opened Bytes
  import opened Utf8
  import opened ByteBuffers
  import opened WindowSpec
  import opened WindowEnds
  import opened WindowText
  import opened TextGaps
  import opened PagingSpec
  import opened TextPages
  import opened OutputWindows
  import opened Wrappers

  const DEFAULT_OUTPUT_BYTES := 64_000
  const MAX_OUTPUT_LINES := 1_000_000
  /** What one file read returns. */
  const CHUNK_BYTES := 64 * 1024

  /** No `b` at the positions `start` up to `end`. */
  predicate Absent(f: seq<byte>, b: byte, start: int, end: int)
    requires 0 <= start && end <= |f|
  {
    forall k :: start <= k < end ==> f[k] != b
  }

  method LastIndexOf(f: seq<byte>, b: byte, start: nat, end: nat) returns (index: int)
    requires start <= end <= |f|
    ensures index == -1 ==> Absent(f, b, start, end)
    ensures index != -1 ==> start <= index < end && f[index] == b && Absent(f, b, index + 1, end)
  {
    index := end - 1;
    while index >= start
      invariant start - 1 <= index < end
      invariant Absent(f, b, index + 1, end)
    {
      if f[index] == b { return; }
      index := index - 1;
    }
    index := -1;
  }

  lemma LineStartIs(f: seq<byte>, start: nat, i: nat)
    requires start <= i <= |f| && (start == 0 || f[start - 1] == NEWLINE) && Absent(f, NEWLINE, start, i)
    ensures LineStart(f, i) == start
  {
    PendingFrom(f[..i], start);
  }

  lemma LineStartBefore(f: seq<byte>, cut: nat, i: nat)
    requires cut <= i <= |f| && Absent(f, NEWLINE, cut, i)
    ensures LineStart(f, i) <= cut
  {
    PendingIsLastLine(f[..i]);
  }

  /** The start of the line that holds `offset`, or the knowledge that it lies at least one scan back. */
  method FindFilteredLineStart(f: seq<byte>, offset: nat) returns (start: Option<nat>)
    requires offset <= |f|
    ensures start.Some? ==> start.value == LineStart(f, offset)
    ensures start.None? ==> MAX_SCAN_BYTES <= offset - LineStart(f, offset)
  {
    hide LineStart;
    var cursor, inspected := offset, 0;
    while cursor > 0 && inspected < MAX_SCAN_BYTES
      invariant 0 <= cursor && cursor + inspected == offset && inspected <= MAX_SCAN_BYTES
      invariant Absent(f, NEWLINE, cursor, offset)
    {
      var requested := Min(CHUNK_BYTES, Min(cursor, MAX_SCAN_BYTES - inspected));
      var begin := cursor - requested;
      var newline := LastIndexOf(f, NEWLINE, begin, cursor);
      if newline != -1 {
        LineStartIs(f, newline + 1, offset);
        return Some(newline + 1);
      }
      cursor, inspected := begin, inspected + requested;
    }
    if cursor == 0 {
      LineStartIs(f, 0, offset);
      return Some(0);
    }
    LineStartBefore(f, cursor, offset);
    start := None;
  }

  /** The loop of the scan: chunk by chunk until the page is full or the scan budget is spent. */
  method ScanChunks(f: seq<byte>, base: nat, w: OutputWindow) returns (p: nat)
    requires base < |f| && Normalized(w.sel) && (w.sel.mode == Head ==> Enters(w.sel, f, base))
    requires w.Valid() && w.fed == [] && !w.ended
    modifies w, w.Parts()
    ensures w.Valid() && base < p <= Min(|f|, base + MAX_SCAN_BYTES) && w.fed == f[base..p]
    ensures w.ended ==> !w.finalUtf8 && w.full && !w.sel.Filtering()
                        && MayFlush(w.sel, f, base, p, |Through(w.sel, f[base..p]).selected|, false)
    ensures !w.ended ==> !w.canFinalizePartialPage() || w.full
    ensures w.full || p == Min(|f|, base + MAX_SCAN_BYTES)
    ensures w.sel.mode == Tail ==> !w.ended && !w.full
  {
    hide Through, Pending, Ended, FinishLine, Enters, Normalized, OutputWindow.Valid, OutputWindow.Shown;
    var scanLimit := Min(|f|, base + MAX_SCAN_BYTES);
    p := base;
    assert f[base..base] == [];
    w.Showing();
    while p < scanLimit
      invariant base <= p <= scanLimit
      invariant w.Valid() && w.selected.Valid() && w.fed == f[base..p] && !w.ended
      invariant p > base ==> !w.canFinalizePartialPage() && (w.sel.mode == Tail ==> !w.full)
    {
      var requested := Min(CHUNK_BYTES, scanLimit - p);
      SliceExtends(f, base, p, p + requested);
      w.pushRaw(f[p..p + requested]);
      p := p + requested;
      NotFullInTail(w);
      if w.canFinalizePartialPage() {
        FlushesPage(f, base, p, w);
        w.end(false);
        w.Closing();
        ClosedFull(w);
      }
      if w.full { break; }
    }
  }

  lemma NotFullInTail(w: OutputWindow)
    requires w.Valid() && !w.ended
    ensures w.selected.Valid() && (w.sel.mode == Tail ==> !w.full)
  {
    hide Through, Pending, FinishLine, OutputWindow.Valid;
    w.Showing();
    if w.sel.mode == Tail { TailNeverFull(w.sel, w.fed); }
  }

  lemma FlushesPage(f: seq<byte>, base: nat, p: nat, w: OutputWindow)
    requires w.Valid() && !w.ended && w.selected.Valid() && w.canFinalizePartialPage()
    requires base < p <= |f| && w.fed == f[base..p] && (w.sel.mode == Head ==> Enters(w.sel, f, base))
    ensures w.sel.mode == Head && !w.sel.Filtering()
    ensures MayFlush(w.sel, f, base, p, |Through(w.sel, f[base..p]).selected|, false)
    ensures Ended(w.sel, f[base..p], false).full
  {
    hide Through, Pending, FinishLine, OutputWindow.Valid, Enters, Ended;
    w.Showing();
    FlushFills(w.sel, f, base, p);
  }

  lemma ClosedFull(w: OutputWindow)
    requires w.selected.Valid() && w.Shown() == Ended(w.sel, w.fed, w.finalUtf8)
    ensures w.full == Ended(w.sel, w.fed, w.finalUtf8).full
  {
    hide Ended;
  }

  lemma SliceExtends(f: seq<byte>, a: nat, b: nat, c: nat)
    requires a <= b <= c <= |f|
    ensures f[a..b] + f[b..c] == f[a..c]
  {
  }

  lemma EntersInside(sel: Selection, f: seq<byte>, base: nat)
    requires Enters(sel, f, base)
    ensures base < |f| && sel.mode == Head
  {
  }

  lemma FirstLineDone(f: seq<byte>, base: nat, p: nat)
    requires base < p <= |f|
    ensures base < Finished(f, base, p) ==> LineEnd(f, base) <= Finished(f, base, p)
    ensures base == Finished(f, base, p) ==> p < LineEnd(f, base) || p == |f|
  {
    hide Finished;
    var done := Finished(f, base, p);
    FinishedIsLineStart(f, base, p);
    LineEndStops(f, base);
  }

  /** What a finished scan shows, on values. */
  ghost predicate Left(sel: Selection, f: seq<byte>, base: nat, p: nat, done: nat, v: View)
    requires Enters(sel, f, base)
  {
    && base <= done <= p <= |f| && OnPage(sel, f, base, done, v)
    && (p == |f| ==> done == p)
    && (!sel.Filtering() ==> base < done)
    && (base == done ==> p == base + MAX_SCAN_BYTES < LineEnd(f, base))
    && (base < done && sel.Filtering() ==> LineEnd(f, base) <= done)
    && (TextEntered(sel, f, base) ==> LeftAtEdge(sel, f, base, done, v))
  }

  /** What a text page kept ends at an edge unless the last line is cut. */
  ghost predicate LeftAtEdge(sel: Selection, f: seq<byte>, base: nat, done: nat, v: View)
    requires TextEntered(sel, f, base)
  {
    && (KeptToEdge(f, base, v) <==> !SplitsLastLine(sel, f, base, base + sel.initialLineSkipBytes))
    && (!KeptToEdge(f, base, v) ==> v.truncated)
    && (base < done <= |f| ==> v.hasKept || f[done - 1] == NEWLINE || done == |f|)
  }

  lemma ScanLeftAtEdge(sel: Selection, f: seq<byte>, base: nat, p: nat)
    requires TextEntered(sel, f, base) && base < p < |f|
    requires Through(sel, f[base..p]).full || p == base + MAX_SCAN_BYTES
    ensures LeftAtEdge(sel, f, base, Finished(f, base, p), Through(sel, f[base..p]))
  {
    hide Through, Finished, Enters, Shaped, KeptToEdge, LastLineCut, AtEdge;
    ThroughEdges(sel, f, base, p);
    FinishedIsLineStart(f, base, p);
    if Through(sel, f[base..p]).full { FullIsNotCut(sel, f, base, p); }
  }

  lemma FlushLeftAtEdge(sel: Selection, f: seq<byte>, base: nat, p: nat, final: bool)
    requires TextEntered(sel, f, base) && base < p <= |f| && p <= base + MAX_SCAN_BYTES
    requires MayFlush(sel, f, base, p, |Through(sel, f[base..p]).selected|, final)
    requires if final then p == |f| && (sel.Filtering() || FlushIsShort(sel, f, base, p))
             else !sel.Filtering() && Ended(sel, f[base..p], final).full
    ensures LeftAtEdge(sel, f, base, p, Ended(sel, f[base..p], final))
  {
    hide Through, Ended, Shaped, KeptToEdge, LastLineCut, AtEdge, Enters, OnPage, EndCuts, Pending;
    EndedEdges(sel, f, base, p, final);
    if final {
      EndCutsIs(sel, f, base);
      if !sel.Filtering() { ShortIsWhole(sel, f, base); }
    } else {
      EndedOnPage(sel, f, base, p, final);
      FullHasKept(sel, f, base, p, Ended(sel, f[base..p], final));
    }
  }

  lemma ShortIsWhole(sel: Selection, f: seq<byte>, base: nat)
    requires TextEntered(sel, f, base) && !sel.Filtering() && FlushIsShort(sel, f, base, |f|)
    ensures !EndCuts(sel, f, base)
  {
    hide Through, Pending, SafeLength;
  }

  lemma FullHasKept(sel: Selection, f: seq<byte>, base: nat, done: nat, v: View)
    requires Enters(sel, f, base) && OnPage(sel, f, base, done, v) && v.full
    ensures v.hasKept
  {
  }

  /** The line flushed at the end of the file is one the window has captured whole. */
  ghost predicate FlushIsShort(sel: Selection, f: seq<byte>, base: nat, p: nat)
    requires base <= p <= |f|
  {
    Through(sel, f[base..p]).full || |Pending(f[base..p])| <= sel.maxBytes
  }

  /** An unfiltered page is full before the scan budget runs out. */
  lemma BudgetSuffices(sel: Selection, f: seq<byte>, base: nat, p: nat)
    requires Enters(sel, f, base) && Normalized(sel) && !sel.Filtering()
    requires base < p < |f| && p == base + MAX_SCAN_BYTES
    requires |Pending(f[base..p])| < sel.maxBytes - |Through(sel, f[base..p]).selected| || Pending(f[base..p]) == []
    ensures Through(sel, f[base..p]).full
  {
    hide Through, Pending;
    hide Matched, Selects;
    ThroughOnPage(sel, f, base, p);
    var v, done := Through(sel, f[base..p]), Finished(f, base, p);
    if base < done { MatchedUnfiltered(sel, f, base, done); }
  }

  lemma ScanLeft(sel: Selection, f: seq<byte>, base: nat, p: nat)
    requires Enters(sel, f, base) && Normalized(sel) && base < p < |f|
    requires var v := Through(sel, f[base..p]);
             && (v.full || p == base + MAX_SCAN_BYTES)
             && (v.full || sel.Filtering() || Pending(f[base..p]) == []
                 || |Pending(f[base..p])| < sel.maxBytes - |v.selected|)
    ensures Left(sel, f, base, p, Finished(f, base, p), Through(sel, f[base..p]))
  {
    hide Through, Pending, LineEnd, LineStart, Finished, Selection.Filtering, Normalized, TextEntered, LeftAtEdge;
    ThroughOnPage(sel, f, base, p);
    if TextEntered(sel, f, base) { ScanLeftAtEdge(sel, f, base, p); }
    FirstLineDone(f, base, p);
    if !sel.Filtering() && !Through(sel, f[base..p]).full { BudgetSuffices(sel, f, base, p); }
  }

  lemma FlushLeft(sel: Selection, f: seq<byte>, base: nat, p: nat, final: bool)
    requires Enters(sel, f, base) && base < p <= |f| && p <= base + MAX_SCAN_BYTES
    requires MayFlush(sel, f, base, p, |Through(sel, f[base..p]).selected|, final)
    requires if final then p == |f| && (sel.Filtering() || FlushIsShort(sel, f, base, p))
             else !sel.Filtering() && Ended(sel, f[base..p], final).full
    ensures Left(sel, f, base, p, p, Ended(sel, f[base..p], final))
  {
    hide Through, Ended, OnPage, Enters, TextEntered, LeftAtEdge, FlushIsShort;
    EndedOnPage(sel, f, base, p, final);
    EntersInside(sel, f, base);
    if TextEntered(sel, f, base) { FlushLeftAtEdge(sel, f, base, p, final); }
  }

  /** Chunks, and the flush of a trailing line when the file has ended. */
  method ScanToEnd(f: seq<byte>, base: nat, w: OutputWindow) returns (p: nat, ghost done: nat)
    requires Enters(w.sel, f, base) && Normalized(w.sel)
    requires w.Valid() && w.fed == [] && !w.ended
    modifies w, w.Parts()
    ensures w.Valid() && w.selected.Valid() && base < p <= Min(|f|, base + MAX_SCAN_BYTES)
    ensures Left(w.sel, f, base, p, done, w.Shown())
    ensures w.currentRawBytes == p - done
    ensures w.full || p == Min(|f|, base + MAX_SCAN_BYTES)
  {
    hide Through, Pending, Ended, FinishLine, Enters, Normalized, Left, OutputWindow.Valid;
    EntersInside(w.sel, f, base);
    p := ScanChunks(f, base, w);
    if !w.ended { w.Showing(); }
    if w.ended {
      w.Closing();
      ClosedFull(w);
      FlushLeft(w.sel, f, base, p, false);
      done := p;
      if p >= |f| { w.end(true); }
      w.Closing();
    } else if p >= |f| {
      FlushLeft(w.sel, f, base, p, true);
      done := p;
      w.end(true);
      w.Closing();
    } else {
      ScanLeft(w.sel, f, base, p);
      done := Finished(f, base, p);
    }
  }

  lemma ResumesAfterPage(sel: Selection, f: seq<byte>, base: nat, done: nat, p: nat, v: View)
    requires Enters(sel, f, base) && Left(sel, f, base, p, done, v) && base < done
    ensures Resume(v, base, p, |f|, p - done).0 <= p
    ensures TextEntered(sel, f, base) ==>
              (AtEdge(f, Resume(v, base, p, |f|, p - done).0) <==>
               !SplitsLastLine(sel, f, base, base + sel.initialLineSkipBytes))
  {
    hide TextEntered, SplitsLastLine, KeptToEdge, Enters, Matched;
    if TextEntered(sel, f, base) { ResumeAtEdge(sel, f, base, done, p, v); }
  }

  /** What the page holds, where it resumes, and when a filter gives up. */
  method ScanFile(f: seq<byte>, base: nat, w: OutputWindow) returns (next: int, eof: bool, tooLong: bool)
    requires Enters(w.sel, f, base) && Normalized(w.sel)
    requires w.Valid() && w.fed == [] && !w.ended
    modifies w, w.Parts()
    ensures w.Valid()
    ensures tooLong <==> w.sel.Filtering() && MAX_SCAN_BYTES < LineEnd(f, base) - base
    ensures !tooLong ==> ExactPage(w.sel, f, base + w.sel.initialLineSkipBytes, w.Shown().selected, next, eof)
    ensures !tooLong ==> next <= base + MAX_SCAN_BYTES
    ensures !tooLong && TextEntered(w.sel, f, base) ==>
              (AtEdge(f, next) <==> !SplitsLastLine(w.sel, f, base, base + w.sel.initialLineSkipBytes))
  {
    hide TextEntered, SplitsLastLine, LeftAtEdge, OutputWindow.Valid, Enters, Normalized, Matched;
    hide ByteRing.Valid, ByteRing.Contents;
    var p;
    ghost var done;
    p, done := ScanToEnd(f, base, w);
    var reachedEnd := p >= |f|;
    if w.sel.Filtering() && !reachedEnd && p >= Min(|f|, base + MAX_SCAN_BYTES)
       && w.currentRawBytes > 0 && w.completedInputBytes == 0 {
      return 0, false, true;
    }
    PageIsExact(w.sel, f, base, done, p, w.Shown());
    ResumesAfterPage(w.sel, f, base, done, p, w.Shown());
    var relative :=
      if reachedEnd && !w.truncated && w.currentRawBytes == 0 then p - base
      else if w.hasKeptInputOffset then w.lastKeptInputOffset
      else w.completedInputBytes;
    next := base + relative;
    eof := reachedEnd && w.currentRawBytes == 0 && (!w.truncated || next >= |f|);
    tooLong := false;
  }

  // ---- one read ----

  datatype Encoding = Utf8Text | Base64

  datatype Request = Request(
    maxBytes: Option<int>, maxLines: Option<int>, mode: Option<Mode>,
    includeFilter: seq<byte>, excludeFilter: seq<byte>, ignoreCase: bool, encoding: Encoding)
  {
    predicate Filtering() { includeFilter != [] || excludeFilter != [] }

    /** Defaults, and the budgets a selection may ask for. */
    function Normalize(): (r: Option<Selection>)
      ensures r.Some? ==> Normalized(r.value) && (r.value.Filtering() <==> Filtering())
    {
      var requested := if maxBytes.Some? then maxBytes.value else DEFAULT_OUTPUT_BYTES;
      if !(MIN_OUTPUT_BYTES <= requested <= MAX_OUTPUT_BYTES) then None
      else if maxLines.Some? && !(1 <= maxLines.value <= MAX_OUTPUT_LINES) then None
      else
        Some(Selection(requested, if maxLines.Some? then maxLines.value else MAX_SAFE_INTEGER,
                       if mode.Some? then mode.value else Tail,
                       includeFilter, excludeFilter, ignoreCase, 0, encoding == Base64))
    }
  }

  datatype ReadResult =
    | Page(bytes: seq<byte>, nextOffset: int, eof: bool)
    | LineTooLong
    | TailOfFilteredRead
    | BadSelection

  /** What a request selects once a retained read has defaulted its mode. */
  function Selected(req: Request): Option<Selection>
  {
    req.(mode := if req.Filtering() || req.mode.None? then Some(Head) else req.mode).Normalize()
  }

  lemma LineOfOffset(f: seq<byte>, offset: nat)
    requires offset < |f|
    ensures var base := LineStart(f, offset);
            && IsLine(f, base, LineEnd(f, offset)) && LineEnd(f, base) == LineEnd(f, offset)
            && base <= offset < LineEnd(f, offset)
  {
    hide LineStart;
    EveryPositionHasALine(f, offset);
    LineEndStops(f, offset);
    LineAt(f, LineStart(f, offset), LineEnd(f, offset), LineStart(f, offset));
  }

  /** A head page, filtered or not: exactly the selected bytes up to where it says to resume. */
  method ReadHeadPage(f: seq<byte>, offset: nat, sel: Selection) returns (r: ReadResult)
    requires offset < |f| && Normalized(sel) && sel.mode == Head && sel.initialLineSkipBytes == 0
    ensures r.Page? || r.LineTooLong?
    ensures r.LineTooLong? <==> sel.Filtering() && MAX_SCAN_BYTES < LineEnd(f, offset) - LineStart(f, offset)
    ensures r.Page? ==> ExactPage(sel, f, offset, r.bytes, r.nextOffset, r.eof)
    ensures r.Page? && sel.Filtering() ==> r.nextOffset <= LineStart(f, offset) + MAX_SCAN_BYTES
    ensures r.Page? && !sel.preserveRawPageBytes && Shaped(f) && AtEdge(f, offset) ==>
              (AtEdge(f, r.nextOffset) <==> !SplitsLastLine(sel, f, LineStart(f, offset), offset))
  {
    hide LineStart, LineEnd, Matched, OutputWindow.Valid, Shaped, LastLineCut;
    LineOfOffset(f, offset);
    var base := offset;
    if sel.Filtering() {
      var start := FindFilteredLineStart(f, offset);
      if start.None? { return LineTooLong; }
      base := start.value;
    }
    var entered := sel.(initialLineSkipBytes := offset - base);
    assert !sel.Filtering() ==> entered == sel;
    var w := OpenWindow(entered);
    var next, eof, tooLong := ScanFile(f, base, w);
    if tooLong { return LineTooLong; }
    var bytes := w.rawBytes();
    MatchedAnywhere(sel, f, offset, next, offset - base);
    if sel.Filtering() { CutAnywhere(sel, f, base, offset); }
    r := Page(bytes, next, eof);
  }

  lemma CutAnywhere(sel: Selection, f: seq<byte>, base: nat, offset: nat)
    requires base <= offset <= |f|
    ensures var entered := sel.(initialLineSkipBytes := offset - base);
            LastLineCut(entered, f, base, offset) <==> LastLineCut(sel, f, base, offset)
  {
    hide Matched, LineStart, SafeLength, Content;
    MatchedAnywhere(sel, f, offset, Max(Max(LineStart(f, |f|), base), offset), offset - base);
  }

  /** The filter for one letter, and a last line one letter too long: the page ends inside that letter. */
  method ReadCutPage(sel: Selection, n: nat) returns (r: ReadResult)
    requires Normalized(sel) && sel.mode == Head && sel.initialLineSkipBytes == 0 && !sel.preserveRawPageBytes
    requires sel.includeFilter == [0x61] && sel.excludeFilter == [] && sel.maxBytes == 2 * n
    ensures var f := [0x61] + Letters(n); Shaped(f) && r.Page? && 0 <= r.nextOffset && !AtEdge(f, r.nextOffset)
  {
    hide LineStart, LineEnd, Letters, Shaped, SplitsLastLine;
    var f := [0x61] + Letters(n);
    LetterIsCut(sel, n);
    LineOfOffset(f, 0);
    r := ReadHeadPage(f, 0, sel);
  }

  /** Where a tail window starts to read. */
  function TailBase(sel: Selection, f: seq<byte>, offset: nat): (base: nat)
    ensures offset <= base
  {
    Max(offset, |f| - sel.maxBytes - (if sel.preserveRawPageBytes then 0 else 3))
  }

  /** Raw or ASCII bytes: the longest end that fits. Text: whole code points within both budgets, and the longest such
      end exactly if no gap is left. */
  ghost predicate TailPage(sel: Selection, f: seq<byte>, offset: nat, bytes: seq<byte>)
    requires offset <= |f|
  {
    && (Plain(sel, f) ==> LongestSuffix(sel, bytes, f[offset..]))
    && (Shaped(f) && !sel.preserveRawPageBytes && TailBase(sel, f, offset) <= |f| ==>
          && Fits(sel, bytes) && Shaped(bytes)
          && (LongestText(sel, bytes, f[offset..]) <==> GapInAll(sel, f[TailBase(sel, f, offset)..]).Contiguous?))
  }

  lemma TailIsText(sel: Selection, f: seq<byte>, offset: nat)
    requires Normalized(sel) && sel.mode == Tail && sel.initialLineSkipBytes == 0 && !sel.Filtering()
    requires offset < |f| && Shaped(f) && !sel.preserveRawPageBytes
    ensures var base := TailBase(sel, f, offset); base < |f|
    ensures var base := TailBase(sel, f, offset); var bytes := Ended(sel, f[base..], true).selected;
            && Fits(sel, bytes) && Shaped(bytes)
            && (LongestText(sel, bytes, f[offset..]) <==> GapInAll(sel, f[base..]).Contiguous?)
  {
    hide Ended, Fits, Shaped, LongestText, PassedInAll, Textual, GapInAll, IsSuffix;
    var base := TailBase(sel, f, offset);
    SuffixIsTextual(f, base);
    TailTextIsLongest(sel, f[base..]);
    LongestExactly(sel, f[base..]);
    PassedInAllUnfiltered(sel, f[base..]);
    assert f[base..] == f[offset..][base - offset..];
    var bytes := Ended(sel, f[base..], true).selected;
    if GapInAll(sel, f[base..]).Contiguous? { TextOfLonger(sel, bytes, f[offset..], base - offset); }
    if LongestText(sel, bytes, f[offset..]) { EndOfShorter(sel, bytes, f[offset..], base - offset); }
  }

  lemma EndOfShorter(sel: Selection, x: seq<byte>, whole: seq<byte>, cut: nat)
    requires cut <= |whole| && LongestText(sel, x, whole) && (cut == 0 || sel.maxBytes <= |whole| - cut)
    ensures IsSuffix(x, whole[cut..])
  {
    hide LineCount, Shaped, Missing;
    assert x == whole[|whole| - |x|..];
  }

  lemma TextOfLonger(sel: Selection, x: seq<byte>, whole: seq<byte>, cut: nat)
    requires cut <= |whole| && LongestText(sel, x, whole[cut..]) && (cut == 0 || sel.maxBytes <= |whole| - cut)
    ensures LongestText(sel, x, whole)
  {
    hide LineCount, Shaped;
    var part, gone, less := whole[cut..], whole[..|whole| - |x|], whole[cut..][..|whole| - cut - |x|];
    assert x == whole[|whole| - |x|..];
    forall g | 0 <= g < |gone| && !IsContinuation(gone[g]) ensures !Fits(sel, gone[g..] + x) {
      if cut <= g {
        assert gone[g..] == less[g - cut..] && gone[g] == less[g - cut];
      }
    }
  }

  /** A tail read returns the last bytes from the offset on, and has reached the end. */
  method ReadTailPage(f: seq<byte>, offset: nat, sel: Selection) returns (r: ReadResult)
    requires offset < |f| && Normalized(sel) && sel.mode == Tail && sel.initialLineSkipBytes == 0 && !sel.Filtering()
    ensures r.Page? && r.nextOffset == |f| && r.eof && TailPage(sel, f, offset, r.bytes)
  {
    hide OutputWindow.Valid, LongestSuffix, Through, Pending, FinishLine, Plain, Shaped, GapInAll, LongestText, Fits;
    var base := TailBase(sel, f, offset);
    var w := OpenWindow(sel);
    var p := ScanChunks(f, base, w);
    w.end(true);
    var relative :=
      if !w.truncated && w.currentRawBytes == 0 then p - base
      else if w.hasKeptInputOffset then w.lastKeptInputOffset
      else w.completedInputBytes;
    w.Closing();
    assert p == |f| && f[base..|f|] == f[base..];
    TailEndsAtSize(sel, f[base..]);
    var bytes := w.rawBytes();
    if Plain(sel, f) { TailOfOffset(sel, f, offset, base); }
    if Shaped(f) && !sel.preserveRawPageBytes { TailIsText(sel, f, offset); }
    r := Page(bytes, base + relative, !w.truncated || base + relative >= |f|);
  }

  lemma TailEndsAtSize(sel: Selection, s: seq<byte>)
    requires sel.mode == Tail && !sel.Filtering() && 0 < sel.maxBytes && sel.initialLineSkipBytes == 0 && s != []
    ensures var v := Ended(sel, s, true); v.hasKept && v.lastKept == v.completed == |s|
  {
    hide FinishLine, Through;
    TailKeptOffset(sel, s);
    ThroughAccounted(sel, s);
    if Pending(s) != [] { TailLineKept(sel, Through(sel, s), Pending(s), true); }
  }

  /** Bytes before the window's budget could never be in the tail. */
  lemma TailOfOffset(sel: Selection, f: seq<byte>, offset: nat, base: nat)
    requires Normalized(sel) && sel.mode == Tail && sel.initialLineSkipBytes == 0 && !sel.Filtering()
    requires offset <= base < |f| && Plain(sel, f) && (base == offset || sel.maxBytes <= |f| - base)
    ensures LongestSuffix(sel, Ended(sel, f[base..], true).selected, f[offset..])
  {
    hide Ended, Fits, LineCount;
    var x := Ended(sel, f[base..], true).selected;
    TailIsLongestSuffix(sel, f[base..], true);
    PassedInAllUnfiltered(sel, f[base..]);
    assert f[base..] == f[offset..][base - offset..];
    TailOfLonger(sel, x, f[offset..], base - offset);
  }

  lemma PassedInAllUnfiltered(sel: Selection, s: seq<byte>)
    requires !sel.Filtering() && sel.initialLineSkipBytes == 0
    ensures PassedInAll(sel, s) == s
  {
    hide Through, Passed, FinishLine;
    PassedFits(sel, s);
    NoneDropped(sel, s);
    PendingIsLastLine(s);
    assert s == s[..|s| - |Pending(s)|] + Pending(s);
  }

  lemma {:induction false} NoneDropped(sel: Selection, s: seq<byte>)
    requires !sel.Filtering()
    ensures Through(sel, s).droppedByFilter == 0
  {
    hide FinishLine;
    if s != [] {
      NoneDropped(sel, s[..|s| - 1]);
      FinishLineCounts(sel, Through(sel, s[..|s| - 1]), Pending(s[..|s| - 1]) + [NEWLINE], false);
    }
  }

  lemma TailOfLonger(sel: Selection, x: seq<byte>, whole: seq<byte>, cut: nat)
    requires cut <= |whole| && LongestSuffix(sel, x, whole[cut..]) && (cut == 0 || sel.maxBytes <= |whole| - cut)
    ensures LongestSuffix(sel, x, whole)
  {
    hide LineCount;
    var part := whole[cut..];
    var gone :| 0 <= gone <= |part| && x == part[gone..] && forall g :: 0 <= g < gone ==> !Fits(sel, part[g..]);
    assert x == whole[cut + gone..];
    forall g | 0 <= g < cut + gone ensures !Fits(sel, whole[g..]) {
      if cut <= g { assert whole[g..] == part[g - cut..]; }
    }
  }

  /** One read of an exited run's stream; a stream that was never retained has no file. */
  method Read(file: Option<seq<byte>>, requestedOffset: int, req: Request) returns (r: ReadResult)
    ensures var offset := Max(0, requestedOffset);
            if file.None? then r == Page([], offset, true)
            else if offset >= |file.value| then r == Page([], |file.value|, true)
            else if req.Filtering() && req.mode == Some(Tail) then r == TailOfFilteredRead
            else if Selected(req).None? then r == BadSelection
            else if Selected(req).value.mode == Tail then
              && r.Page? && r.eof && r.nextOffset == |file.value|
              && TailPage(Selected(req).value, file.value, offset, r.bytes)
            else
              var f, sel := file.value, Selected(req).value;
              && (r == LineTooLong <==> req.Filtering() && MAX_SCAN_BYTES < LineEnd(f, offset) - LineStart(f, offset))
              && (r != LineTooLong ==> r.Page? && ExactPage(sel, f, offset, r.bytes, r.nextOffset, r.eof))
  {
    hide LineStart, LineEnd, ExactPage, TailPage;
    var offset := Max(0, requestedOffset);
    if file.None? { return Page([], offset, true); }
    var f := file.value;
    if offset >= |f| { return Page([], |f|, true); }
    if req.Filtering() && req.mode == Some(Tail) { return TailOfFilteredRead; }
    var selection := Selected(req);
    if selection.None? { return BadSelection; }
    if selection.value.mode == Tail { r := ReadTailPage(f, offset, selection.value); }
    else { r := ReadHeadPage(f, offset, selection.value); }
  }

  // ---- following nextOffset ----

  /** Every logical line can be scanned at once. */
  ghost predicate Scannable(f: seq<byte>)
  {
    forall i :: 0 <= i < |f| ==> LineEnd(f, i) - LineStart(f, i) <= MAX_SCAN_BYTES
  }

  /** Every line that ends by `offset` can be scanned at once. */
  ghost predicate ScannableTo(f: seq<byte>, offset: nat)
  {
    forall i :: 0 <= i < |f| && LineEnd(f, i) <= offset ==> LineEnd(f, i) - LineStart(f, i) <= MAX_SCAN_BYTES
  }

  /** A page reaches no further than one scan from its line, so no over-long line is skipped. */
  lemma NoLineSkipped(f: seq<byte>, offset: nat, next: nat)
    requires ScannableTo(f, offset) && offset < |f| && offset <= next <= |f|
    requires next <= LineStart(f, offset) + MAX_SCAN_BYTES
    requires LineEnd(f, offset) - LineStart(f, offset) <= MAX_SCAN_BYTES
    ensures ScannableTo(f, next)
  {
    hide LineStart, LineEnd;
    forall i | 0 <= i < |f| && LineEnd(f, i) <= next ensures LineEnd(f, i) - LineStart(f, i) <= MAX_SCAN_BYTES {
      LineOfOffset(f, i);
      LineOfOffset(f, offset);
      if LineStart(f, i) <= offset < LineEnd(f, i) { LineAt(f, LineStart(f, i), LineEnd(f, i), offset); }
    }
  }

  lemma NotScannable(f: seq<byte>, offset: nat)
    requires offset < |f| && MAX_SCAN_BYTES < LineEnd(f, offset) - LineStart(f, offset)
    ensures !Scannable(f)
  {
  }

  lemma ScannableAtEnd(f: seq<byte>)
    ensures ScannableTo(f, 0) && (ScannableTo(f, |f|) <==> Scannable(f))
  {
    hide LineStart, LineEnd;
    forall i | 0 <= i < |f| ensures 0 < LineEnd(f, i) <= |f| { LineOfOffset(f, i); }
  }

  /**
   * A reader that passes each `nextOffset` back until `eof` has read exactly the
   * passing lines of the file, each once, and every page before the last moves on.
   */
  method ReadAllPages(f: seq<byte>, sel: Selection) returns (all: seq<byte>, refused: bool)
    requires Normalized(sel) && sel.mode == Head && sel.initialLineSkipBytes == 0
    ensures refused <==> sel.Filtering() && !Scannable(f)
    ensures !refused ==> all == PassingLines(sel, f)
    ensures !sel.Filtering() ==> !refused && all == f
  {
    hide LineStart, LineEnd, Matched, PassingLines, Normalized, Scannable, ScannableTo;
    ScannableAtEnd(f);
    all, refused := [], false;
    var offset, eof := 0, f == [];
    NothingMatched(sel, f, 0);
    while !eof
      invariant 0 <= offset <= |f| && (eof <==> offset == |f|)
      invariant all == Matched(sel, f, 0, offset) && (sel.Filtering() ==> ScannableTo(f, offset))
      decreases |f| - offset
    {
      var r := ReadHeadPage(f, offset, sel);
      if r.LineTooLong? {
        NotScannable(f, offset);
        return all, true;
      }
      if sel.Filtering() { NoLineSkipped(f, offset, r.nextOffset); }
      MatchedSplit(sel, f, 0, offset, r.nextOffset);
      all := all + r.bytes;
      offset, eof := r.nextOffset, r.eof;
    }
    MatchedIsPassingLines(sel, f, 0);
    assert f[0..] == f && f[..|f|] == f;
    if !sel.Filtering() { MatchedUnfiltered(sel, f, 0, |f|); }
  }

  /** Text pages of well shaped UTF-8 never split a code point: each page is well shaped by itself. */
  method ReadTextPages(f: seq<byte>, sel: Selection) returns (pages: seq<seq<byte>>)
    requires Normalized(sel) && sel.mode == Head && sel.initialLineSkipBytes == 0
    requires !sel.Filtering() && !sel.preserveRawPageBytes && Shaped(f)
    ensures Flatten(pages) == f && forall i :: 0 <= i < |pages| ==> Shaped(pages[i])
  {
    hide LineStart, LineEnd, Matched, Normalized, Shaped, AtEdge;
    pages := [];
    var offset, eof := 0, f == [];
    assert f[..0] == [];
    WholeStarts(f);
    while !eof
      invariant 0 <= offset <= |f| && (eof <==> offset == |f|)
      invariant AtEdge(f, offset) && Flatten(pages) == f[..offset]
      invariant forall i :: 0 <= i < |pages| ==> Shaped(pages[i])
      decreases |f| - offset
    {
      var r := ReadHeadPage(f, offset, sel);
      MatchedUnfiltered(sel, f, offset, r.nextOffset);
      PieceIsShaped(f, offset, r.nextOffset);
      FlattenAppend(pages, r.bytes);
      assert f[..offset] + f[offset..r.nextOffset] == f[..r.nextOffset];
      pages := pages + [r.bytes];
      offset, eof := r.nextOffset, r.eof;
    }
    assert f[..|f|] == f;
  }

  lemma WholeStarts(f: seq<byte>)
    requires Shaped(f)
    ensures AtEdge(f, 0)
  {
  }

  lemma PieceIsShaped(f: seq<byte>, a: nat, b: nat)
    requires Shaped(f) && a <= b <= |f| && AtEdge(f, a) && AtEdge(f, b)
    ensures Shaped(f[a..b])
  {
    hide Shaped;
    CutAtEdge(f, a);
    assert b < |f| ==> f[a..][b - a] == f[b];
    CutAtEdge(f[a..], b - a);
    assert f[a..][..b - a] == f[a..b];
  }

  function Flatten(pages: seq<seq<byte>>): seq<byte>
  {
    if pages == [] then [] else Flatten(pages[..|pages| - 1]) + pages[|pages| - 1]
  }

  lemma FlattenAppend(pages: seq<seq<byte>>, page: seq<byte>)
    ensures Flatten(pages + [page]) == Flatten(pages) + page
  {
    assert (pages + [page])[..|pages|] == pages;
  }
}
