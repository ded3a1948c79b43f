/** The window as a class over a ring and a capture buffer, proved to compute WindowSpec. */
module OutputWindows {
  import opened Bytes
  import opened Utf8
  import opened ByteBuffers
  import opened LiteralMatching
  import opened WindowSpec

  method IndexOf(s: seq<byte>, b: byte, start: nat) returns (index: int)
    requires start <= |s|
    ensures index == -1 ==> b !in s[start..]
    ensures index != -1 ==> start <= index < |s| && s[index] == b && b !in s[start..index]
  {
    for i := start to |s|
      invariant b !in s[start..i]
    {
      if s[i] == b { return i; }
    }
    assert s[start..|s|] == s[start..];
    index := -1;
  }

  /** The head half of `add`; the counters travel as values. */
  method AddToHead(
    sel: Selection, selected: ByteRing, kept: nat, cut: bool, line: seq<byte>, rawLineBytes: nat, final: bool)
    returns (keptLines: nat, full: bool, truncated: bool, fate: LineFate)
    requires selected.Valid() && selected.capacity == sel.maxBytes
    modifies selected, selected.storage
    ensures selected.Valid()
    ensures Added(selected.Contents(), keptLines, full, truncated, fate) ==
            AddHead(sel, old(selected.Contents()), kept, cut, line, rawLineBytes, final)
  {
    hide SafeLength, ByteRing.Valid, ByteRing.Contents, Selection.Filtering;
    keptLines, full, truncated := kept, false, cut || rawLineBytes > |line|;
    var remaining := sel.maxBytes - selected.byteLength();
    if remaining <= 0 || keptLines >= sel.maxLines {
      return keptLines, true, true, Refused;
    }
    if sel.Filtering() && keptLines > 0 && |line| > remaining {
      return keptLines, true, true, Refused;
    }
    var proposed := First(line, remaining);
    var safeLength := |proposed|;
    if !(sel.preserveRawPageBytes || (final && |proposed| == |line|)) {
      safeLength := Utf8SafeHeadLength(proposed);
    }
    if safeLength == 0 {
      return keptLines, true, true, Partial(0);
    }
    if safeLength < |line| { truncated := true; }
    var dropped := selected.append(proposed[..safeLength]);
    assert selected.Contents() == old(selected.Contents()) + proposed[..safeLength];
    keptLines := keptLines + 1;
    full := selected.byteLength() >= sel.maxBytes || keptLines >= sel.maxLines || safeLength < rawLineBytes;
    fate := if safeLength < rawLineBytes then Partial(safeLength) else Whole;
  }

  method LeadingToSkip(sel: Selection, line: seq<byte>) returns (n: nat)
    ensures n == if sel.preserveRawPageBytes then 0 else Min(3, LeadingContinuations(line))
  {
    n := 0;
    while !sel.preserveRawPageBytes && n < Min(3, |line|) && IsContinuation(line[n])
      invariant n <= 3 && n <= LeadingContinuations(line)
      invariant sel.preserveRawPageBytes ==> n == 0
    {
      n := n + 1;
    }
  }

  method DropExcessLines(selected: ByteRing, kept: nat, maxLines: nat) returns (keptLines: nat, removedAny: bool)
    requires selected.Valid()
    modifies selected
    ensures selected.Valid()
    ensures (selected.Contents(), keptLines) == old(DropLines(selected.Contents(), kept, maxLines))
    ensures removedAny == (|selected.Contents()| < |old(selected.Contents())|)
  {
    hide ByteRing.Valid, ByteRing.Contents, Newlines;
    keptLines, removedAny := kept, false;
    ghost var goal := DropLines(selected.Contents(), keptLines, maxLines);
    while keptLines > maxLines
      invariant selected.Valid() && DropLines(selected.Contents(), keptLines, maxLines) == goal
      invariant |selected.Contents()| <= |old(selected.Contents())|
      invariant removedAny == (|selected.Contents()| < |old(selected.Contents())|)
      decreases |selected.Contents()|
    {
      var removed := selected.dropFirstLine();
      if removed.bytes == 0 { break; }
      keptLines := Max(0, keptLines - Max(1, removed.newlines));
      removedAny := true;
    }
  }

  method AppendAndTrim(sel: Selection, selected: ByteRing, kept: nat, chosen: seq<byte>)
    returns (keptLines: nat, lost: bool)
    requires selected.Valid() && selected.capacity == sel.maxBytes && |chosen| <= sel.maxBytes
    modifies selected, selected.storage
    ensures selected.Valid()
    ensures (selected.Contents(), keptLines, lost) == KeepLatest(sel, old(selected.Contents()), kept, chosen)
  {
    hide LeadingContinuations, DropLines, Newlines, ByteRing.Valid, ByteRing.Contents;
    ghost var held := selected.Contents();
    var dropped := selected.append(chosen);
    ghost var appended := selected.Contents();
    assert First(held, dropped.bytes) == held[..dropped.bytes];
    keptLines := Max(0, kept - dropped.newlines) + 1;
    var trimmed := 0;
    if !sel.preserveRawPageBytes { trimmed := selected.trimLeadingContinuation(); }
    assert selected.Contents() == appended[trimmed..];
    var removedAny;
    keptLines, removedAny := DropExcessLines(selected, keptLines, sel.maxLines);
    lost := dropped.bytes > 0 || trimmed > 0 || removedAny;
  }

  /** The tail half of `add`. */
  method AddToTail(
    sel: Selection, selected: ByteRing, kept: nat, cut: bool, line: seq<byte>, rawLineBytes: nat, final: bool)
    returns (keptLines: nat, full: bool, truncated: bool, fate: LineFate)
    requires selected.Valid() && selected.capacity == sel.maxBytes && |line| <= sel.maxBytes
    modifies selected, selected.storage
    ensures selected.Valid()
    ensures Added(selected.Contents(), keptLines, full, truncated, fate) ==
            AddTail(sel, old(selected.Contents()), kept, cut, line, rawLineBytes, final)
  {
    hide SafeLength, LeadingContinuations, KeepLatest, ByteRing.Valid, ByteRing.Contents;
    keptLines, full, truncated := kept, false, cut || rawLineBytes > |line|;
    var tailEnd := |line|;
    if !(sel.preserveRawPageBytes || final) { tailEnd := Utf8SafeHeadLength(line); }
    var trailing := |line| - tailEnd;
    var tailStart := LeadingToSkip(sel, line[..tailEnd]);
    if tailStart > 0 || trailing > 0 { truncated := true; }
    var chosen := line[tailStart..tailEnd];
    fate := if trailing > 0 then Partial(rawLineBytes - trailing) else Whole;
    if |chosen| == 0 { return keptLines, full, truncated, Partial(rawLineBytes - trailing); }
    var lost;
    keptLines, lost := AppendAndTrim(sel, selected, keptLines, chosen);
    truncated := truncated || lost;
  }

  class OutputWindow {
    const sel: Selection
    const includeMatcher: LiteralMatcher?
    const excludeMatcher: LiteralMatcher?
    const current: BoundedByteBuffer
    const selected: ByteRing
    var currentRawBytes: nat
    var ended: bool
    var finalUtf8: bool
    var keptLines: nat
    var completedInputBytes: nat
    var lastKeptInputOffset: int
    var hasKeptInputOffset: bool
    var bytes: nat
    var lines: nat
    var matched: nat
    var droppedByFilter: nat
    var truncated: bool
    var full: bool
    /** Everything pushed so far. */
    ghost var fed: seq<byte>

    /** The matchers, the buffers and their arrays. */
    ghost function Parts(): set<object>
    {
      {current, current.storage, selected, selected.storage}
      + (if includeMatcher == null then {} else {includeMatcher, includeMatcher.failure})
      + (if excludeMatcher == null then {} else {excludeMatcher, excludeMatcher.failure})
    }

    static ghost predicate Matches(m: LiteralMatcher?, filter: seq<byte>, ignoreCase: bool)
    {
      && (m == null <==> filter == [])
      && (m != null ==> m.ignoreCase == ignoreCase && m.needle == Fold(filter, ignoreCase))
    }

    /** What never changes: the parts, their sizes, and that they are separate objects. */
    ghost predicate Wired()
    {
      && current.capacity == sel.maxBytes == selected.capacity && current.mode == sel.mode
      && 0 < sel.maxBytes && 0 < sel.maxLines
      && current.storage != selected.storage
      && Matches(includeMatcher, sel.includeFilter, sel.ignoreCase)
      && Matches(excludeMatcher, sel.excludeFilter, sel.ignoreCase)
      && (includeMatcher != null ==> includeMatcher != excludeMatcher)
    }

    ghost predicate Sound()
      reads Parts()
    {
      && Wired() && current.Valid() && selected.Valid()
      && (includeMatcher != null ==> includeMatcher.Valid())
      && (excludeMatcher != null ==> excludeMatcher.Valid())
    }

    ghost function Shown(): View
      reads this`keptLines, this`full, this`truncated, this`lines, this`matched, this`droppedByFilter
      reads this`completedInputBytes, this`hasKeptInputOffset, this`lastKeptInputOffset
      reads selected, selected.storage
      requires selected.Valid()
    {
      View(selected.Contents(), keptLines, full, truncated, lines, matched, droppedByFilter,
           completedInputBytes, hasKeptInputOffset, lastKeptInputOffset)
    }

    /** The window shows `v` and is in the middle of the line `raw`, whose text is `content`. */
    ghost predicate Holding(v: View, raw: seq<byte>, content: seq<byte>)
      reads this`keptLines, this`full, this`truncated, this`lines, this`matched, this`droppedByFilter
      reads this`completedInputBytes, this`hasKeptInputOffset, this`lastKeptInputOffset, this`currentRawBytes
      reads Parts()
    {
      && Sound() && Shown() == v && currentRawBytes == |raw|
      && current.fed == Offered(sel, v.lines, raw)
      && (includeMatcher != null ==> includeMatcher.fed == content)
      && (excludeMatcher != null ==> excludeMatcher.fed == content)
    }

    ghost predicate Valid()
      reads this, Parts()
    {
      && bytes == |fed|
      && (if ended then Holding(Ended(sel, fed, finalUtf8), [], [])
          else !finalUtf8 && Holding(Through(sel, fed), Pending(fed), Pending(fed)))
    }

    constructor (sel: Selection, includeMatcher: LiteralMatcher?, excludeMatcher: LiteralMatcher?,
                 current: BoundedByteBuffer, selected: ByteRing)
      requires 0 < sel.maxBytes == current.capacity == selected.capacity && 0 < sel.maxLines
      requires current.mode == sel.mode && current.storage != selected.storage
      requires current.Valid() && current.fed == [] && selected.Valid() && selected.Contents() == []
      requires Matches(includeMatcher, sel.includeFilter, sel.ignoreCase)
      requires Matches(excludeMatcher, sel.excludeFilter, sel.ignoreCase)
      requires includeMatcher != null ==> includeMatcher != excludeMatcher
      requires includeMatcher != null ==> includeMatcher.Valid() && includeMatcher.fed == []
      requires excludeMatcher != null ==> excludeMatcher.Valid() && excludeMatcher.fed == []
      ensures Valid() && this.sel == sel && fed == [] && !ended
      ensures this.current == current && this.selected == selected
      ensures this.includeMatcher == includeMatcher && this.excludeMatcher == excludeMatcher
    {
      hide LiteralMatcher.Valid, BoundedByteBuffer.Valid, ByteRing.Valid, ByteRing.Contents, Fold;
      this.sel := sel;
      this.includeMatcher, this.excludeMatcher := includeMatcher, excludeMatcher;
      this.current, this.selected := current, selected;
      currentRawBytes, ended, finalUtf8, keptLines := 0, false, false, 0;
      completedInputBytes, lastKeptInputOffset, hasKeptInputOffset := 0, 0, false;
      bytes, lines, matched, droppedByFilter := 0, 0, 0, 0;
      truncated, full := false, false;
      fed := [];
      new;
      assert Wired();
      hide *;
      Opening();
    }

    lemma Opening()
      requires Wired() && current.Valid() && selected.Valid() && selected.Contents() == [] && current.fed == []
      requires includeMatcher != null ==> includeMatcher.Valid() && includeMatcher.fed == []
      requires excludeMatcher != null ==> excludeMatcher.Valid() && excludeMatcher.fed == []
      requires currentRawBytes == 0 && keptLines == 0 && completedInputBytes == 0 && lastKeptInputOffset == 0
      requires !hasKeptInputOffset && lines == matched == droppedByFilter == bytes == 0 && !truncated && !full
      requires fed == [] && !ended && !finalUtf8
      ensures Valid()
    {
      hide Through, Pending, Ended, FinishLine, Fold, Occurs, Offered, Wired;
      hide LiteralMatcher.Valid, BoundedByteBuffer.Valid, ByteRing.Valid, ByteRing.Contents;
      NothingThrough(sel);
      OfferedNothing(sel);
    }

    /** However the input is cut into calls, the window comes to hold the view of all of it. */
    method pushRaw(raw: seq<byte>)
      requires Valid() && !ended
      modifies this, Parts()
      ensures Valid() && !ended && fed == old(fed) + raw
    {
      hide Wired, Through, Pending, Holding, FinishLine, Ended;
      bytes := bytes + |raw|;
      var start := 0;
      ghost var before := fed;
      assert before + raw[..0] == before;
      while true
        invariant start <= |raw| && !ended && !finalUtf8 && bytes == |before| + |raw|
        invariant fed == before + raw[..start]
        invariant Holding(Through(sel, fed), Pending(fed), Pending(fed))
        decreases |raw| - start
      {
        var nl := IndexOf(raw, NEWLINE, start);
        if nl == -1 { break; }
        pushLineBytes(raw[start..nl]);
        assert raw[..nl + 1] == raw[..start] + raw[start..nl] + [NEWLINE];
        start := nl + 1;
      }
      assert before + raw == before + raw[..start] + raw[start..];
      pushFragment(Through(sel, fed), Pending(fed), raw[start..]);
      ThroughFragment(sel, fed, raw[start..]);
      fed := fed + raw[start..];
    }

    method pushLineBytes(content: seq<byte>)
      requires Holding(Through(sel, fed), Pending(fed), Pending(fed)) && NEWLINE !in content && !finalUtf8
      modifies this, Parts()
      ensures Holding(Through(sel, fed), Pending(fed), Pending(fed)) && !finalUtf8
      ensures fed == old(fed) + content + [NEWLINE] && bytes == old(bytes) && ended == old(ended)
    {
      hide Holding, Through, Pending, FinishLine, Content, Wired;
      ghost var v, text := Through(sel, fed), Pending(fed) + content;
      pushFragment(v, Pending(fed), content);
      captureLineBytes(v, text, [NEWLINE], text);
      ContentOfLine(text);
      var fate := finishLine(v, text + [NEWLINE]);
      ThroughFragment(sel, fed, content);
      ThroughByte(sel, fed + content, NEWLINE);
      fed := fed + content + [NEWLINE];
    }

    method pushFragment(ghost v: View, ghost raw: seq<byte>, fragment: seq<byte>)
      requires Holding(v, raw, raw)
      modifies Parts(), this`currentRawBytes
      ensures Holding(v, raw + fragment, raw + fragment)
    {
      hide LiteralMatcher.Valid, BoundedByteBuffer.Valid, ByteRing.Valid, ByteRing.Contents, Offered, Fold;
      if |fragment| == 0 {
        assert raw + fragment == raw;
        return;
      }
      captureLineBytes(v, raw, fragment, raw);
      if includeMatcher != null { includeMatcher.push(fragment); }
      if excludeMatcher != null { excludeMatcher.push(fragment); }
    }

    /** The capture takes what the page may return of this fragment, past the bytes to skip. */
    method captureLineBytes(ghost v: View, ghost raw: seq<byte>, fragment: seq<byte>, ghost content: seq<byte>)
      requires Holding(v, raw, content)
      modifies current, current.storage, this`currentRawBytes
      ensures Holding(v, raw + fragment, content)
    {
      hide LiteralMatcher.Valid, BoundedByteBuffer.Valid, ByteRing.Valid, ByteRing.Contents, Offered, Fold;
      OfferedAppend(sel, lines, raw, fragment);
      var skip := if lines == 0 then sel.initialLineSkipBytes else 0;
      var captureAt := Min(|fragment|, Max(0, skip - currentRawBytes));
      if captureAt < |fragment| { current.push(fragment[captureAt..]); }
      else { assert current.fed + fragment[captureAt..] == current.fed; }
      currentRawBytes := currentRawBytes + |fragment|;
    }

    method finishLine(ghost v: View, ghost raw: seq<byte>) returns (fate: LineFate)
      requires Holding(v, raw, Content(raw))
      modifies this, Parts()
      ensures Holding(FinishLine(sel, v, raw, finalUtf8), [], [])
      ensures fed == old(fed) && bytes == old(bytes) && ended == old(ended) && finalUtf8 == old(finalUtf8)
    {
      hide Holding, FinishLine, Content, Wired, Sound;
      fate := settleHeld(v, raw);
      resetLine();
      Resting(FinishLine(sel, v, raw, finalUtf8));
    }

    method settleHeld(ghost v: View, ghost raw: seq<byte>) returns (fate: LineFate)
      requires Holding(v, raw, Content(raw))
      modifies selected, selected.storage, this`completedInputBytes, this`lines, this`matched, this`droppedByFilter
      modifies this`full, this`truncated, this`keptLines, this`hasKeptInputOffset, this`lastKeptInputOffset
      ensures Sound() && selected.Valid() && Shown() == FinishLine(sel, v, raw, finalUtf8)
    {
      hide LiteralMatcher.Valid, BoundedByteBuffer.Valid, ByteRing.Valid, ByteRing.Contents;
      hide FinishLine, Content, Selection.LineMatches, Kept, Fold, Matches, Offered;
      var matches := lineMatches(Content(raw));
      var line := current.bytes();
      fate := settle(v, raw, matches, line);
    }

    lemma Resting(v: View)
      requires Sound() && selected.Valid() && Shown() == v && currentRawBytes == 0 && current.fed == []
      requires includeMatcher != null ==> includeMatcher.fed == []
      requires excludeMatcher != null ==> excludeMatcher.fed == []
      ensures Holding(v, [], [])
    {
    }

    method settle(ghost v: View, ghost raw: seq<byte>, matches: bool, line: seq<byte>) returns (fate: LineFate)
      requires Wired() && selected.Valid() && Shown() == v && currentRawBytes == |raw|
      requires matches == sel.LineMatches(Content(raw))
      requires line == Kept(sel.mode, Offered(sel, v.lines, raw), sel.maxBytes)
      modifies selected, selected.storage, this`completedInputBytes, this`lines, this`matched, this`droppedByFilter
      modifies this`full, this`truncated, this`keptLines, this`hasKeptInputOffset, this`lastKeptInputOffset
      ensures selected.Valid() && Shown() == FinishLine(sel, v, raw, finalUtf8)
    {
      hide Wired, ByteRing.Valid, ByteRing.Contents, WindowSpec.Keep, Content, Selection.LineMatches, Kept, Offered;
      WiredBudget();
      KeptFits(sel.mode, Offered(sel, v.lines, raw), sel.maxBytes);
      OfferedLength(sel, v.lines, raw);
      var rawLineBytes := currentRawBytes;
      var captureSkip := if lines == 0 then Min(sel.initialLineSkipBytes, rawLineBytes) else 0;
      var lineStart := completedInputBytes;
      completedInputBytes := completedInputBytes + rawLineBytes;
      lines := lines + 1;
      if !matches {
        droppedByFilter := droppedByFilter + 1;
        return Refused;
      }
      matched := matched + 1;
      fate := keep(line, rawLineBytes - captureSkip, lineStart + captureSkip);
    }

    method keep(line: seq<byte>, offered: nat, offeredAt: nat) returns (fate: LineFate)
      requires selected.Valid() && selected.capacity == sel.maxBytes && |line| <= sel.maxBytes
      modifies selected, selected.storage, this`full, this`truncated, this`keptLines
      modifies this`hasKeptInputOffset, this`lastKeptInputOffset
      ensures selected.Valid() && Shown() == Keep(sel, old(Shown()), line, offered, offeredAt, finalUtf8)
    {
      hide ByteRing.Valid, ByteRing.Contents, Add;
      fate := add(line, offered);
      if fate != Refused {
        hasKeptInputOffset := true;
        lastKeptInputOffset := if fate == Whole then completedInputBytes else offeredAt + fate.bytes;
      }
    }

    lemma WiredBudget()
      requires Wired()
      ensures selected.capacity == sel.maxBytes
    {
    }

    method lineMatches(ghost content: seq<byte>) returns (matches: bool)
      requires Sound()
      requires includeMatcher != null ==> includeMatcher.fed == content
      requires excludeMatcher != null ==> excludeMatcher.fed == content
      ensures matches == sel.LineMatches(content)
    {
      hide LiteralMatcher.Valid, BoundedByteBuffer.Valid, ByteRing.Valid, Fold, Occurs;
      if includeMatcher != null { MatchedMeansOccurs(includeMatcher); }
      if excludeMatcher != null { MatchedMeansOccurs(excludeMatcher); }
      matches := (includeMatcher == null || includeMatcher.matched)
                 && (excludeMatcher == null || !excludeMatcher.matched);
    }

    method resetLine()
      requires Sound() && selected.Valid()
      modifies current, this`currentRawBytes
      modifies if includeMatcher == null then {} else {includeMatcher}
      modifies if excludeMatcher == null then {} else {excludeMatcher}
      ensures Sound() && currentRawBytes == 0 && current.fed == []
      ensures selected.Valid() && Shown() == old(Shown())
      ensures includeMatcher != null ==> includeMatcher.fed == []
      ensures excludeMatcher != null ==> excludeMatcher.fed == []
    {
      hide LiteralMatcher.Valid, BoundedByteBuffer.Valid, ByteRing.Valid, Fold;
      current.reset();
      currentRawBytes := 0;
      if includeMatcher != null { includeMatcher.reset(); }
      if excludeMatcher != null { excludeMatcher.reset(); }
    }

    method add(line: seq<byte>, rawLineBytes: nat) returns (fate: LineFate)
      requires selected.Valid() && selected.capacity == sel.maxBytes && |line| <= sel.maxBytes
      modifies selected, selected.storage, this`full, this`truncated, this`keptLines
      ensures selected.Valid()
      ensures (Shown(), fate) == Add(sel, old(Shown()), line, rawLineBytes, finalUtf8)
    {
      hide AddHead, AddTail, ByteRing.Contents, ByteRing.Valid;
      if full {
        truncated := true;
        return Refused;
      }
      if sel.mode == Head {
        keptLines, full, truncated, fate :=
          AddToHead(sel, selected, keptLines, truncated, line, rawLineBytes, finalUtf8);
      } else {
        keptLines, full, truncated, fate :=
          AddToTail(sel, selected, keptLines, truncated, line, rawLineBytes, finalUtf8);
      }
    }

    /** What is pending becomes the last line; ending twice is ending once. */
    method end(final: bool)
      requires Valid()
      modifies this, Parts()
      ensures Valid() && ended && fed == old(fed)
      ensures !old(ended) ==> finalUtf8 == final
      ensures old(ended) ==> finalUtf8 == old(finalUtf8) && Shown() == old(Shown())
    {
      hide Through, Pending, FinishLine, Holding;
      if ended { return; }
      ghost var v, raw := Through(sel, fed), Pending(fed);
      HoldingCounts(v, raw, raw);
      ended, finalUtf8 := true, final;
      if currentRawBytes > 0 {
        ContentOfPending(fed);
        var fate := finishLine(v, raw);
      }
    }

    lemma HoldingCounts(v: View, raw: seq<byte>, content: seq<byte>)
      requires Holding(v, raw, content)
      ensures currentRawBytes == |raw|
    {
    }

    /** Until the end is flushed the window shows what has been fed to it. */
    lemma Showing()
      requires Valid() && !ended
      ensures selected.Valid() && Shown() == Through(sel, fed) && currentRawBytes == |Pending(fed)|
    {
    }

    lemma Closing()
      requires Valid() && ended
      ensures selected.Valid() && Shown() == Ended(sel, fed, finalUtf8) && currentRawBytes == 0
    {
    }

    /** The exact selected bytes. */
    method rawBytes() returns (out: seq<byte>)
      requires Valid()
      ensures out == Shown().selected
    {
      out := selected.bytes();
    }

    predicate withheld()
      reads this
    {
      truncated || droppedByFilter > 0
    }

    /** Without a filter the pending bytes alone would fill the page, so no newline need be waited for. */
    predicate canFinalizePartialPage()
      reads this, selected, selected.storage
      requires selected.Valid()
    {
      && sel.mode == Head && currentRawBytes != 0
      && !(currentRawBytes < sel.maxBytes - selected.byteLength())
      && !sel.Filtering()
    }
  }

  /** An absent pattern compiles to no matcher. */
  method CompileFilter(pattern: seq<byte>, ignoreCase: bool) returns (m: LiteralMatcher?)
    ensures OutputWindow.Matches(m, pattern, ignoreCase)
    ensures m != null ==> fresh(m) && fresh(m.failure) && m.Valid() && m.fed == []
  {
    hide LiteralMatcher.Valid, Fold;
    if pattern == [] { return null; }
    m := new LiteralMatcher(pattern, ignoreCase);
  }

  method OpenWindow(sel: Selection) returns (w: OutputWindow)
    requires 0 < sel.maxBytes && 0 < sel.maxLines
    ensures w.Valid() && w.sel == sel && w.fed == [] && !w.ended
    ensures fresh(w) && fresh(w.Parts())
  {
    hide LiteralMatcher.Valid, BoundedByteBuffer.Valid, ByteRing.Valid, ByteRing.Contents, Fold, OutputWindow.Valid;
    var inc := CompileFilter(sel.includeFilter, sel.ignoreCase);
    var exc := CompileFilter(sel.excludeFilter, sel.ignoreCase);
    var current := new BoundedByteBuffer(sel.maxBytes, sel.mode);
    var selected := new ByteRing(sel.maxBytes);
    w := new OutputWindow(sel, inc, exc, current, selected);
  }
}
