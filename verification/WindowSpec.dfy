/**
 * What an output window selects, as functions of everything fed to it. The
 * class in OutputWindow.dfy is proved to compute these; the promises about the
 * selection are proved here.
 */
module WindowSpec {
  import opened Bytes
  import opened Utf8
  import opened ByteBuffers
  import opened LiteralMatching

  /** A normalized selection; an empty filter is no filter. */
  datatype Selection = Selection(
    maxBytes: nat, maxLines: nat, mode: Mode,
    includeFilter: seq<byte>, excludeFilter: seq<byte>, ignoreCase: bool,
    initialLineSkipBytes: nat, preserveRawPageBytes: bool)
  {
    predicate Filtering() { includeFilter != [] || excludeFilter != [] }

    ghost predicate LineMatches(content: seq<byte>)
    {
      && (includeFilter != [] ==> Occurs(Fold(includeFilter, ignoreCase), Fold(content, ignoreCase)))
      && (excludeFilter != [] ==> !Occurs(Fold(excludeFilter, ignoreCase), Fold(content, ignoreCase)))
    }
  }

  const MIN_OUTPUT_BYTES := 256
  const MAX_OUTPUT_BYTES := 4_000_000
  const MAX_SAFE_INTEGER := 9_007_199_254_740_991

  /** A selection a window may be opened with. */
  predicate Normalized(sel: Selection)
  {
    && MIN_OUTPUT_BYTES <= sel.maxBytes <= MAX_OUTPUT_BYTES
    && 1 <= sel.maxLines <= MAX_SAFE_INTEGER
  }

  datatype LineFate = Refused | Whole | Partial(bytes: int)

  /** The observable state of a window between two lines. */
  datatype View = View(
    selected: seq<byte>, keptLines: nat, full: bool, truncated: bool,
    lines: nat, matched: nat, droppedByFilter: nat, completed: nat,
    hasKept: bool, lastKept: int)

  function Empty(): View { View([], 0, false, false, 0, 0, 0, 0, false, 0) }

  /** A line without its terminator; a line has no other newline. */
  function Content(line: seq<byte>): seq<byte>
  {
    if line != [] && line[|line| - 1] == NEWLINE then line[..|line| - 1] else line
  }

  /** What adding one line to the selection leaves behind. */
  datatype Added = Added(selected: seq<byte>, keptLines: nat, full: bool, truncated: bool, fate: LineFate)

  function AddHead(
    sel: Selection, held: seq<byte>, kept: nat, cut: bool, line: seq<byte>, rawLineBytes: nat, final: bool): Added
  {
    var remaining := sel.maxBytes - |held|;
    if remaining <= 0 || kept >= sel.maxLines then Added(held, kept, true, true, Refused)
    else if sel.Filtering() && kept > 0 && |line| > remaining then Added(held, kept, true, true, Refused)
    else
      var proposed := First(line, remaining);
      var safe :=
        if sel.preserveRawPageBytes || (final && |proposed| == |line|) then |proposed| else SafeLength(proposed);
      if safe == 0 then Added(held, kept, true, true, Partial(0))
      else
        var selected := held + proposed[..safe];
        Added(selected, kept + 1,
              |selected| >= sel.maxBytes || kept + 1 >= sel.maxLines || safe < rawLineBytes,
              cut || rawLineBytes > |line| || safe < |line|,
              if safe < rawLineBytes then Partial(safe) else Whole)
  }

  /** Whole lines leave from the front until the line budget holds. */
  function DropLines(s: seq<byte>, kept: nat, maxLines: nat): (r: (seq<byte>, nat))
    ensures |r.0| <= |s|
    decreases |s|
  {
    if kept <= maxLines || s == [] then (s, kept)
    else
      var n := FirstLineLength(s);
      DropLines(s[n..], Max(0, kept - Max(1, Newlines(s[..n]))), maxLines)
  }

  /** The latest bytes within both budgets, their line count, and whether any were lost. */
  function KeepLatest(sel: Selection, held: seq<byte>, kept: nat, chosen: seq<byte>): (seq<byte>, nat, bool)
  {
    var appended := Last(held + chosen, sel.maxBytes);
    var dropped := |held| + |chosen| - |appended|;
    var count := Max(0, kept - Newlines(First(held, dropped))) + 1;
    var trim := if sel.preserveRawPageBytes then 0 else Min(3, LeadingContinuations(appended));
    var left := DropLines(appended[trim..], count, sel.maxLines);
    (left.0, left.1, dropped > 0 || trim > 0 || |left.0| < |appended| - trim)
  }

  function AddTail(
    sel: Selection, held: seq<byte>, kept: nat, cut: bool, line: seq<byte>, rawLineBytes: nat, final: bool): Added
  {
    var tailEnd := if sel.preserveRawPageBytes || final then |line| else SafeLength(line);
    var tailStart := if sel.preserveRawPageBytes then 0 else Min(3, LeadingContinuations(line[..tailEnd]));
    var trailing := |line| - tailEnd;
    var cut1 := cut || rawLineBytes > |line| || tailStart > 0 || trailing > 0;
    var chosen := line[tailStart..tailEnd];
    if chosen == [] then Added(held, kept, false, cut1, Partial(rawLineBytes - trailing))
    else
      var (selected, count, lost) := KeepLatest(sel, held, kept, chosen);
      Added(selected, count, false, cut1 || lost, if trailing > 0 then Partial(rawLineBytes - trailing) else Whole)
  }

  function Add(sel: Selection, v: View, line: seq<byte>, rawLineBytes: nat, final: bool): (r: (View, LineFate))
  {
    if v.full then (v.(truncated := true), Refused)
    else
      var a := if sel.mode == Head then AddHead(sel, v.selected, v.keptLines, v.truncated, line, rawLineBytes, final)
               else AddTail(sel, v.selected, v.keptLines, v.truncated, line, rawLineBytes, final);
      (v.(selected := a.selected, keptLines := a.keptLines, full := a.full, truncated := a.truncated), a.fate)
  }

  /** The part of a line the window may return: only the first line can be entered in its middle. */
  function Offered(sel: Selection, lines: nat, raw: seq<byte>): seq<byte>
  {
    if lines == 0 then raw[Min(sel.initialLineSkipBytes, |raw|)..] else raw
  }

  lemma OfferedLength(sel: Selection, lines: nat, raw: seq<byte>)
    ensures |Offered(sel, lines, raw)| == |raw| - (if lines == 0 then Min(sel.initialLineSkipBytes, |raw|) else 0)
  {
  }

  lemma OfferedNothing(sel: Selection)
    ensures Offered(sel, 0, []) == []
  {
  }

  /** Where the next fragment of a line starts to be offered. */
  lemma OfferedAppend(sel: Selection, lines: nat, raw: seq<byte>, fragment: seq<byte>)
    ensures var skip := if lines == 0 then sel.initialLineSkipBytes else 0;
            var at := Min(|fragment|, Max(0, skip - |raw|));
            Offered(sel, lines, raw + fragment) == Offered(sel, lines, raw) + fragment[at..]
  {
    var skip := if lines == 0 then sel.initialLineSkipBytes else 0;
    assert forall s: seq<byte> :: s[0..] == s;
    if skip <= |raw| {
      assert (raw + fragment)[skip..] == raw[skip..] + fragment;
    } else if skip <= |raw| + |fragment| {
      assert (raw + fragment)[skip..] == fragment[skip - |raw|..];
    }
  }

  /** Add a passing line, and remember where the kept bytes end in the input. */
  function Keep(sel: Selection, v: View, line: seq<byte>, offered: nat, offeredAt: nat, final: bool): View
  {
    var (next, fate) := Add(sel, v, line, offered, final);
    match fate
    case Refused => next
    case Whole => next.(hasKept := true, lastKept := v.completed)
    case Partial(n) => next.(hasKept := true, lastKept := offeredAt + n)
  }

  ghost function FinishLine(sel: Selection, v: View, raw: seq<byte>, final: bool): (r: View)
  {
    var offered := Offered(sel, v.lines, raw);
    var counted := v.(completed := v.completed + |raw|, lines := v.lines + 1);
    if !sel.LineMatches(Content(raw)) then counted.(droppedByFilter := v.droppedByFilter + 1)
    else
      Keep(sel, counted.(matched := v.matched + 1), Kept(sel.mode, offered, sel.maxBytes),
           |offered|, v.completed + (|raw| - |offered|), final)
  }

  /** The bytes after the last newline. */
  function Pending(s: seq<byte>): (p: seq<byte>)
    ensures |p| <= |s|
  {
    if s == [] || s[|s| - 1] == NEWLINE then []
    else Pending(s[..|s| - 1]) + [s[|s| - 1]]
  }

  lemma {:induction false} PendingIsLastLine(s: seq<byte>)
    ensures NEWLINE !in Pending(s)
    ensures s[|s| - |Pending(s)|..] == Pending(s)
    ensures |Pending(s)| < |s| ==> s[|s| - |Pending(s)| - 1] == NEWLINE
  {
    if s != [] { PendingIsLastLine(s[..|s| - 1]); }
  }

  /** The window after `s`, with the unfinished line still pending. */
  ghost function Through(sel: Selection, s: seq<byte>): (v: View)
  {
    if s == [] then Empty()
    else
      var before := s[..|s| - 1];
      if s[|s| - 1] == NEWLINE then FinishLine(sel, Through(sel, before), Pending(before) + [NEWLINE], false)
      else Through(sel, before)
  }

  /** The window after `s` has ended: a trailing line without newline is flushed. */
  ghost function Ended(sel: Selection, s: seq<byte>, final: bool): (v: View)
  {
    if Pending(s) == [] then Through(sel, s) else FinishLine(sel, Through(sel, s), Pending(s), final)
  }

  lemma ContentOfLine(text: seq<byte>)
    ensures Content(text + [NEWLINE]) == text
  {
    assert (text + [NEWLINE])[..|text|] == text;
  }

  lemma ContentOfPending(s: seq<byte>)
    ensures Content(Pending(s)) == Pending(s)
  {
    PendingIsLastLine(s);
  }

  lemma NothingThrough(sel: Selection)
    ensures Through(sel, []) == Empty() && Pending([]) == []
  {
  }

  lemma ThroughByte(sel: Selection, s: seq<byte>, b: byte)
    ensures Pending(s + [b]) == if b == NEWLINE then [] else Pending(s) + [b]
    ensures Through(sel, s + [b]) ==
            if b == NEWLINE then FinishLine(sel, Through(sel, s), Pending(s) + [NEWLINE], false) else Through(sel, s)
  {
    assert (s + [b])[..|s|] == s;
  }

  lemma {:induction false} ThroughFragment(sel: Selection, s: seq<byte>, more: seq<byte>)
    requires NEWLINE !in more
    ensures Pending(s + more) == Pending(s) + more
    ensures Through(sel, s + more) == Through(sel, s)
  {
    hide *;
    if more == [] {
      assert s + more == s && Pending(s) + more == Pending(s);
    } else {
      var shorter, b := more[..|more| - 1], more[|more| - 1];
      ThroughFragment(sel, s, shorter);
      ThroughByte(sel, s + shorter, b);
      assert s + shorter + [b] == s + more;
      assert Pending(s) + shorter + [b] == Pending(s) + more;
    }
  }

  /** Only a head window ever refuses more input. */
  lemma {:induction false} TailNeverFull(sel: Selection, s: seq<byte>)
    requires sel.mode == Tail
    ensures !Through(sel, s).full
  {
    hide FinishLine;
    if s != [] {
      var before := s[..|s| - 1];
      TailNeverFull(sel, before);
      TailLineNotFull(sel, Through(sel, before), Pending(before) + [NEWLINE], false);
    }
  }

  lemma TailLineNotFull(sel: Selection, v: View, raw: seq<byte>, final: bool)
    requires sel.mode == Tail && !v.full
    ensures !FinishLine(sel, v, raw, final).full
  {
    hide KeepLatest, SafeLength, LeadingContinuations, Content, Selection.LineMatches, Offered, Kept;
  }

  /** An unfiltered tail window always accounts for its input up to the last line. */
  lemma {:induction false} TailKeptOffset(sel: Selection, s: seq<byte>)
    requires sel.mode == Tail && !sel.Filtering() && 0 < sel.maxBytes && sel.initialLineSkipBytes == 0
    ensures var v := Through(sel, s); !v.full && (0 < v.lines ==> v.hasKept && v.lastKept == v.completed)
  {
    hide FinishLine;
    if s != [] {
      var before := s[..|s| - 1];
      TailKeptOffset(sel, before);
      TailLineKept(sel, Through(sel, before), Pending(before) + [NEWLINE], false);
    }
  }

  lemma TailLineKept(sel: Selection, v: View, raw: seq<byte>, final: bool)
    requires sel.mode == Tail && !sel.Filtering() && 0 < sel.maxBytes && sel.initialLineSkipBytes == 0
    requires !v.full && raw != [] && (raw[|raw| - 1] == NEWLINE || final)
    ensures var r := FinishLine(sel, v, raw, final);
            !r.full && r.hasKept && r.lastKept == r.completed == v.completed + |raw|
  {
    hide AddTail, Content, Kept;
    assert Offered(sel, v.lines, raw) == raw;
    var line := Last(raw, sel.maxBytes);
    assert Kept(sel.mode, raw, sel.maxBytes) == line by { LatestIsLast(raw, sel.maxBytes); }
    AddTailEnds(sel, v.selected, v.keptLines, v.truncated, line, |raw|, final);
    UnfilteredMatches(sel, Content(raw));
    hide Selection.LineMatches, Last, Offered;
  }

  lemma LatestIsLast(raw: seq<byte>, capacity: nat)
    ensures Kept(Tail, raw, capacity) == Last(raw, capacity)
  {
  }

  lemma UnfilteredMatches(sel: Selection, content: seq<byte>)
    requires !sel.Filtering()
    ensures sel.LineMatches(content)
  {
  }

  /** A complete or final line is accounted for up to its end. */
  lemma AddTailEnds(
    sel: Selection, held: seq<byte>, kept: nat, cut: bool, line: seq<byte>, rawLineBytes: nat, final: bool)
    requires line != [] && (line[|line| - 1] == NEWLINE || final)
    ensures var a := AddTail(sel, held, kept, cut, line, rawLineBytes, final);
            !a.full && (a.fate == Whole || a.fate == Partial(rawLineBytes))
  {
    hide KeepLatest, SafeLength, LeadingContinuations;
    if !final { NewlineEndsSafely(line); }
  }

  /** Every line is either matched or filtered out, and every byte is in a complete line or pending. */
  ghost predicate Accounted(v: View, s: seq<byte>)
  {
    && v.matched + v.droppedByFilter == v.lines == Newlines(s)
    && v.completed + |Pending(s)| == |s|
    && (v.lines == 0 <==> v.completed == 0)
  }

  lemma FinishLineCounts(sel: Selection, v: View, raw: seq<byte>, final: bool)
    ensures var r := FinishLine(sel, v, raw, final);
            && r.lines == v.lines + 1 && r.completed == v.completed + |raw|
            && r.matched + r.droppedByFilter == v.matched + v.droppedByFilter + 1
            && (r.droppedByFilter == v.droppedByFilter <==> sel.LineMatches(Content(raw)))
            && r.droppedByFilter >= v.droppedByFilter
  {
  }

  lemma {:induction false} ThroughAccounted(sel: Selection, s: seq<byte>)
    ensures Accounted(Through(sel, s), s)
  {
    hide FinishLine, Through, Pending, Newlines, Accounted;
    if s == [] {
      NothingAccounted(sel);
    } else {
      var before, b := s[..|s| - 1], s[|s| - 1];
      assert before + [b] == s;
      ThroughAccounted(sel, before);
      ByteAccounted(sel, before, b);
    }
  }

  lemma NothingAccounted(sel: Selection)
    ensures Accounted(Through(sel, []), [])
  {
  }

  lemma ByteAccounted(sel: Selection, s: seq<byte>, b: byte)
    requires Accounted(Through(sel, s), s)
    ensures Accounted(Through(sel, s + [b]), s + [b])
  {
    hide FinishLine, Through, Pending;
    ThroughByte(sel, s, b);
    assert (s + [b])[..|s|] == s;
    if b == NEWLINE { FinishLineCounts(sel, Through(sel, s), Pending(s) + [NEWLINE], false); }
  }

  // ---- truncation ----

  /** The bytes of the complete lines that pass the filters, in order. */
  ghost function Passed(sel: Selection, s: seq<byte>): seq<byte>
  {
    if s == [] then []
    else
      var before := s[..|s| - 1];
      if s[|s| - 1] == NEWLINE then Passed(sel, before) + PassedLine(sel, Newlines(before), Pending(before) + [NEWLINE])
      else Passed(sel, before)
  }

  ghost function PassedLine(sel: Selection, lines: nat, raw: seq<byte>): seq<byte>
  {
    if sel.LineMatches(Content(raw)) then Offered(sel, lines, raw) else []
  }

  ghost function PassedInAll(sel: Selection, s: seq<byte>): seq<byte>
  {
    if Pending(s) == [] then Passed(sel, s) else Passed(sel, s) + PassedLine(sel, Newlines(s), Pending(s))
  }

  lemma PassedByte(sel: Selection, s: seq<byte>, b: byte)
    ensures Passed(sel, s + [b]) ==
            if b == NEWLINE then Passed(sel, s) + PassedLine(sel, Newlines(s), Pending(s) + [NEWLINE])
            else Passed(sel, s)
  {
    assert (s + [b])[..|s|] == s;
  }

  /** Truncation is claimed exactly when passing bytes are missing from the selection. */
  predicate Honest(truncated: bool, selected: seq<byte>, passed: seq<byte>)
  {
    && (truncated ==> |selected| < |passed|)
    && (!truncated ==> selected == passed)
  }

  ghost predicate HonestlyTruncated(v: View, passed: seq<byte>)
  {
    Honest(v.truncated, v.selected, passed)
  }

  lemma AddHeadHonest(
    sel: Selection, held: seq<byte>, kept: nat, cut: bool, offered: seq<byte>, passed: seq<byte>, final: bool)
    requires |held| <= sel.maxBytes && offered != [] && sel.maxBytes > 0 && Honest(cut, held, passed)
    ensures var a := AddHead(sel, held, kept, cut, First(offered, sel.maxBytes), |offered|, final);
            Honest(a.truncated, a.selected, passed + offered) && |a.selected| <= sel.maxBytes
  {
    hide SafeLength;
  }

  lemma DropLinesOnce(s: seq<byte>, kept: nat, maxLines: nat) returns (n: nat, left: nat)
    ensures n <= |s| && (n == 0 ==> DropLines(s, kept, maxLines).0 == s)
    ensures 0 < n ==> DropLines(s, kept, maxLines) == DropLines(s[n..], left, maxLines)
  {
    hide Newlines;
    n, left := 0, kept;
    if kept > maxLines && s != [] {
      n := FirstLineLength(s);
      left := Max(0, kept - Max(1, Newlines(s[..n])));
    }
  }

  lemma {:induction false} DropLinesIsSuffix(s: seq<byte>, kept: nat, maxLines: nat) returns (gone: seq<byte>)
    ensures s == gone + DropLines(s, kept, maxLines).0
    decreases |s|
  {
    hide DropLines;
    var n, left := DropLinesOnce(s, kept, maxLines);
    gone := s[..n];
    if 0 < n {
      var more := DropLinesIsSuffix(s[n..], left, maxLines);
      gone := gone + more;
    }
    assert s == s[..n] + s[n..];
  }

  lemma LastFits(s: seq<byte>, n: nat)
    ensures |Last(s, n)| == Min(|s|, n) && (|s| <= n ==> Last(s, n) == s)
  {
  }

  lemma KeepLatestLoses(sel: Selection, held: seq<byte>, kept: nat, chosen: seq<byte>)
    ensures var (selected, count, lost) := KeepLatest(sel, held, kept, chosen);
            && |selected| <= sel.maxBytes && |selected| <= |held| + |chosen|
            && (lost ==> |selected| < |held| + |chosen|)
            && (!lost ==> selected == held + chosen)
  {
    hide DropLines, LeadingContinuations, Newlines, Last, First;
    LastFits(held + chosen, sel.maxBytes);
    var appended := Last(held + chosen, sel.maxBytes);
    var dropped := |held| + |chosen| - |appended|;
    var count := Max(0, kept - Newlines(First(held, dropped))) + 1;
    var trim := if sel.preserveRawPageBytes then 0 else Min(3, LeadingContinuations(appended));
    TrimmedLoses(appended, trim, count, sel.maxLines);
  }

  lemma TrimmedLoses(appended: seq<byte>, trim: nat, count: nat, maxLines: nat)
    requires trim <= |appended|
    ensures var left := DropLines(appended[trim..], count, maxLines).0;
            |left| <= |appended| - trim && (|left| == |appended| ==> left == appended)
  {
    hide DropLines;
    var gone := DropLinesIsSuffix(appended[trim..], count, maxLines);
    if trim == 0 { assert appended[trim..] == appended; }
  }

  lemma AddTailHonest(
    sel: Selection, held: seq<byte>, kept: nat, cut: bool, offered: seq<byte>, passed: seq<byte>, final: bool)
    requires |held| <= sel.maxBytes && offered != [] && sel.maxBytes > 0 && Honest(cut, held, passed)
    ensures var a := AddTail(sel, held, kept, cut, Last(offered, sel.maxBytes), |offered|, final);
            Honest(a.truncated, a.selected, passed + offered) && |a.selected| <= sel.maxBytes
  {
    hide KeepLatest, SafeLength, LeadingContinuations;
    var line := Last(offered, sel.maxBytes);
    var tailEnd := if sel.preserveRawPageBytes || final then |line| else SafeLength(line);
    var tailStart := if sel.preserveRawPageBytes then 0 else Min(3, LeadingContinuations(line[..tailEnd]));
    var chosen := line[tailStart..tailEnd];
    KeepLatestLoses(sel, held, kept, chosen);
    if |chosen| == |offered| { assert chosen == line == offered; }
  }

  lemma AddHonest(sel: Selection, v: View, offered: seq<byte>, passed: seq<byte>, final: bool)
    requires |v.selected| <= sel.maxBytes && 0 < sel.maxBytes && offered != []
    requires HonestlyTruncated(v, passed)
    ensures var r := Add(sel, v, Kept(sel.mode, offered, sel.maxBytes), |offered|, final).0;
            HonestlyTruncated(r, passed + offered) && |r.selected| <= sel.maxBytes
  {
    hide AddHead, AddTail;
    if !v.full {
      if sel.mode == Head { AddHeadHonest(sel, v.selected, v.keptLines, v.truncated, offered, passed, final); }
      else { AddTailHonest(sel, v.selected, v.keptLines, v.truncated, offered, passed, final); }
    }
  }

  lemma FinishLineHonest(sel: Selection, v: View, raw: seq<byte>, passed: seq<byte>, final: bool)
    requires |v.selected| <= sel.maxBytes && 0 < sel.maxBytes && Offered(sel, v.lines, raw) != []
    requires HonestlyTruncated(v, passed)
    ensures var r := FinishLine(sel, v, raw, final);
            HonestlyTruncated(r, passed + PassedLine(sel, v.lines, raw)) && |r.selected| <= sel.maxBytes
  {
    hide Add;
    var w := v.(completed := v.completed + |raw|, lines := v.lines + 1, matched := v.matched + 1);
    if sel.LineMatches(Content(raw)) { AddHonest(sel, w, Offered(sel, v.lines, raw), passed, final); }
    else { assert passed + PassedLine(sel, v.lines, raw) == passed; }
  }

  lemma {:induction false} ThroughHonest(sel: Selection, s: seq<byte>)
    requires 0 < sel.maxBytes && sel.initialLineSkipBytes == 0
    ensures HonestlyTruncated(Through(sel, s), Passed(sel, s)) && |Through(sel, s).selected| <= sel.maxBytes
  {
    hide FinishLine;
    if s != [] {
      var before, b := s[..|s| - 1], s[|s| - 1];
      assert before + [b] == s;
      ThroughHonest(sel, before);
      ThroughAccounted(sel, before);
      ThroughByte(sel, before, b);
      PassedByte(sel, before, b);
      FinishLineHonest(sel, Through(sel, before), Pending(before) + [NEWLINE], Passed(sel, before), false);
    }
  }

  /** A window over a whole stream withholds nothing exactly when it holds every byte. */
  lemma WithheldIsHonest(sel: Selection, s: seq<byte>, final: bool)
    requires 0 < sel.maxBytes && sel.initialLineSkipBytes == 0
    ensures var v := Ended(sel, s, final); !(v.truncated || v.droppedByFilter > 0) <==> v.selected == s
  {
    hide FinishLine;
    ThroughHonest(sel, s);
    ThroughAccounted(sel, s);
    PassedFits(sel, s);
    if Pending(s) != [] {
      FinishLineHonest(sel, Through(sel, s), Pending(s), Passed(sel, s), final);
      FinishLineCounts(sel, Through(sel, s), Pending(s), final);
    }
    PendingIsLastLine(s);
    assert s == s[..|s| - |Pending(s)|] + Pending(s);
  }

  /** Passing bytes are all the bytes of the complete lines unless the filter dropped a line. */
  lemma {:induction false} PassedFits(sel: Selection, s: seq<byte>)
    requires sel.initialLineSkipBytes == 0
    ensures var done := s[..|s| - |Pending(s)|]; var v := Through(sel, s);
            if v.droppedByFilter == 0 then Passed(sel, s) == done else |Passed(sel, s)| < |done|
  {
    hide *;
    if s == [] {
      PassedFitsNothing(sel);
      assert s[..|s| - |Pending(s)|] == [];
    } else {
      var before, b := s[..|s| - 1], s[|s| - 1];
      assert before + [b] == s;
      PassedFits(sel, before);
      PassedFitsByte(sel, before, b);
    }
  }

  lemma PassedFitsNothing(sel: Selection)
    ensures Passed(sel, []) == [] == Pending([]) && Through(sel, []).droppedByFilter == 0
  {
  }

  lemma PassedFitsByte(sel: Selection, s: seq<byte>, b: byte)
    requires sel.initialLineSkipBytes == 0
    requires var done := s[..|s| - |Pending(s)|]; var v := Through(sel, s);
             if v.droppedByFilter == 0 then Passed(sel, s) == done else |Passed(sel, s)| < |done|
    ensures var t := s + [b];
            var done := t[..|t| - |Pending(t)|]; var v := Through(sel, t);
            if v.droppedByFilter == 0 then Passed(sel, t) == done else |Passed(sel, t)| < |done|
  {
    hide FinishLine, Through, Passed, Pending, Selection.LineMatches;
    var t, done := s + [b], s[..|s| - |Pending(s)|];
    ThroughByte(sel, s, b);
    PassedByte(sel, s, b);
    if b == NEWLINE {
      var line := Pending(s) + [NEWLINE];
      PendingIsLastLine(s);
      FinishLineCounts(sel, Through(sel, s), line, false);
      assert t[..|t|] == t == done + line;
    } else {
      assert t[..|t| - |Pending(t)|] == done;
    }
  }
}
