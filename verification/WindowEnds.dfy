/**
 * Which bytes a window keeps: the longest suffix of the passing lines in tail
 * mode, the longest prefix in unfiltered head mode, within both budgets. True
 * of raw pages and of ASCII input; TailGap shows what text adds to that.
 */
module WindowEnds {
  import opened Bytes
  import opened Utf8
  import opened ByteBuffers
  import opened WindowSpec

  /** Lines begun in `s`: every newline ends one, trailing bytes are one more. */
  function LineCount(s: seq<byte>): nat
  {
    Newlines(s) + (if s != [] && s[|s| - 1] != NEWLINE then 1 else 0)
  }

  predicate Fits(sel: Selection, s: seq<byte>)
  {
    |s| <= sel.maxBytes && LineCount(s) <= sel.maxLines
  }

  ghost predicate LongestSuffix(sel: Selection, x: seq<byte>, whole: seq<byte>)
  {
    && Fits(sel, x)
    && exists gone | 0 <= gone <= |whole| ::
         x == whole[gone..] && forall g :: 0 <= g < gone ==> !Fits(sel, whole[g..])
  }

  ghost predicate LongestPrefix(sel: Selection, x: seq<byte>, whole: seq<byte>)
  {
    && Fits(sel, x)
    && exists n | 0 <= n <= |whole| ::
         x == whole[..n] && forall m :: n < m <= |whole| ==> !Fits(sel, whole[..m])
  }

  /** At most one newline, at the very end. */
  predicate OneLine(s: seq<byte>)
  {
    s != [] && NEWLINE !in s[..|s| - 1]
  }

  predicate WholeLines(s: seq<byte>)
  {
    s == [] || s[|s| - 1] == NEWLINE
  }

  lemma LineCountConcat(a: seq<byte>, b: seq<byte>)
    ensures b != [] ==> LineCount(a + b) == Newlines(a) + LineCount(b)
    ensures LineCount(a) <= LineCount(a + b) && LineCount(b) <= LineCount(a + b)
  {
    hide Newlines;
    NewlinesConcat(a, b);
    if b == [] { assert a + b == a; NewlinesOfNothing(); }
    else {
      assert (a + b)[|a + b| - 1] == b[|b| - 1];
      SomeLine(b);
    }
  }

  lemma SomeLine(s: seq<byte>)
    requires s != []
    ensures 1 <= LineCount(s)
  {
  }

  lemma NewlinesOfNothing()
    ensures Newlines([]) == 0 && Newlines([NEWLINE]) == 1
  {
  }

  lemma OneLineCounts(s: seq<byte>)
    requires OneLine(s)
    ensures LineCount(s) == 1
  {
    NoNewlines(s[..|s| - 1]);
  }

  lemma OneLineSuffix(s: seq<byte>, n: nat)
    requires OneLine(s) && n < |s|
    ensures OneLine(s[n..])
  {
    assert s[n..][..|s| - n - 1] == s[..|s| - 1][n..];
  }

  lemma LargerUnfit(sel: Selection, before: seq<byte>, x: seq<byte>, after: seq<byte>)
    requires !Fits(sel, x)
    ensures !Fits(sel, before + x) && !Fits(sel, x + after)
  {
    hide LineCount;
    LineCountConcat(before, x);
    LineCountConcat(x, after);
  }

  // ---- tail ----

  /** `x` fits behind `gone`, and not with one byte more. */
  ghost predicate Tight(sel: Selection, gone: seq<byte>, x: seq<byte>)
  {
    Fits(sel, x) && (gone != [] ==> !Fits(sel, [gone[|gone| - 1]] + x))
  }

  /** Both budgets only grow, so what does not fit with one byte more fits with no more at all. */
  lemma TightIsLongest(sel: Selection, gone: seq<byte>, x: seq<byte>)
    requires Tight(sel, gone, x)
    ensures LongestSuffix(sel, x, gone + x)
  {
    hide Fits;
    var whole := gone + x;
    forall g | 0 <= g < |gone| ensures !Fits(sel, whole[g..]) {
      LargerUnfit(sel, gone[g..|gone| - 1], [gone[|gone| - 1]] + x, []);
      assert whole[g..] == gone[g..|gone| - 1] + ([gone[|gone| - 1]] + x);
    }
    assert x == whole[|gone|..];
  }

  lemma DropOneLine(s: seq<byte>) returns (n: nat)
    requires 2 <= LineCount(s)
    ensures n == FirstLineLength(s) && 0 < n < |s| && s[n - 1] == NEWLINE
    ensures Newlines(s[..n]) == 1 && LineCount(s[n..]) == LineCount(s) - 1
  {
    hide Newlines;
    n := FirstLineLength(s);
    NewlinesOfNothing();
    NoNewlines(s);
    NoNewlines(s[..n - 1]);
    NewlinesConcat(s[..n - 1], [s[n - 1]]);
    assert s[..n] == s[..n - 1] + [s[n - 1]];
    LineCountConcat(s[..n], s[n..]);
    assert s == s[..n] + s[n..] && s[..|s|] == s;
  }

  lemma DropLinesStep(s: seq<byte>, maxLines: nat)
    requires 0 < maxLines
    ensures LineCount(s) <= maxLines ==> DropLines(s, LineCount(s), maxLines) == (s, LineCount(s))
    ensures maxLines < LineCount(s) ==>
              var n := FirstLineLength(s);
              Newlines(s[..n]) == 1 && LineCount(s[n..]) == LineCount(s) - 1 ==>
              DropLines(s, LineCount(s), maxLines) == DropLines(s[n..], LineCount(s[n..]), maxLines)
  {
    hide Newlines;
    NewlinesOfNothing();
  }

  lemma {:induction false} DropLinesTight(s: seq<byte>, maxLines: nat) returns (gone: seq<byte>)
    requires 0 < maxLines
    ensures var r := DropLines(s, LineCount(s), maxLines);
            && s == gone + r.0 && r.1 == LineCount(r.0) <= maxLines
            && (LineCount(s) <= maxLines <==> gone == [])
            && (gone != [] ==> maxLines < LineCount([gone[|gone| - 1]] + r.0))
    decreases |s|
  {
    hide Newlines, LineCount, DropLines;
    if LineCount(s) <= maxLines {
      gone := [];
      assert s == gone + s;
      DropLinesStep(s, maxLines);
    } else {
      var n := DropOneLine(s);
      DropLinesStep(s, maxLines);
      var more := DropLinesTight(s[n..], maxLines);
      gone := s[..n] + more;
      assert s == s[..n] + s[n..];
      if more == [] {
        assert gone == s[..n];
        NewlinesOfNothing();
        OneMoreLine(s[n..]);
      }
    }
  }

  lemma OneMoreLine(s: seq<byte>)
    ensures LineCount([NEWLINE] + s) == 1 + LineCount(s)
  {
    NewlinesOfNothing();
    LineCountConcat([NEWLINE], s);
    if s == [] { assert [NEWLINE] + s == [NEWLINE]; }
  }

  /** The latest bytes after one more passing line, the line count the window keeps for them, and what went. */
  ghost predicate Appended(sel: Selection, gone: seq<byte>, held: seq<byte>, raw: seq<byte>, gone': seq<byte>)
  {
    var line := Last(raw, sel.maxBytes);
    var appended := Last(held + line, sel.maxBytes);
    var dropped := |held| + |line| - |appended|;
    && dropped <= |held|
    && LineCount(appended) == Max(0, LineCount(held) - Newlines(First(held, dropped))) + 1
    && gone' + appended == gone + held + raw
    && (gone' != [] ==> !Fits(sel, [gone'[|gone'| - 1]] + appended))
  }

  lemma LongLineAppended(sel: Selection, gone: seq<byte>, held: seq<byte>, raw: seq<byte>) returns (gone': seq<byte>)
    requires 0 < sel.maxBytes <= |raw| && WholeLines(held) && OneLine(raw)
    ensures Appended(sel, gone, held, raw, gone')
  {
    hide Newlines, LineCount;
    var cut := |raw| - sel.maxBytes;
    var line := raw[cut..];
    gone' := gone + held + raw[..cut];
    assert raw == raw[..cut] + line;
    OneLineSuffix(raw, cut);
    OneLineCounts(line);
    assert First(held, |held|) == held;
    WholeLinesCount(held);
    assert Last(raw, sel.maxBytes) == line;
    assert Last(held + line, sel.maxBytes) == line;
  }

  lemma ShortLineAppended(sel: Selection, gone: seq<byte>, held: seq<byte>, raw: seq<byte>) returns (gone': seq<byte>)
    requires Tight(sel, gone, held) && WholeLines(held) && OneLine(raw) && |raw| < sel.maxBytes
    ensures Appended(sel, gone, held, raw, gone')
  {
    var d := Max(0, |held| + |raw| - sel.maxBytes);
    gone' := gone + held[..d];
    ShortLineCounts(held, raw, d);
    ShortLineUnfit(sel, gone, held, raw, d);
    ShortLineKept(held, raw, sel.maxBytes);
    hide Newlines, LineCount, First, Last, Fits, Tight, WholeLines, OneLine;
    assert gone' + (held[d..] + raw) == gone + held + raw;
  }

  lemma ShortLineKept(held: seq<byte>, raw: seq<byte>, maxBytes: nat)
    requires |held| <= maxBytes && |raw| < maxBytes
    ensures var d := Max(0, |held| + |raw| - maxBytes);
            d <= |held| && Last(raw, maxBytes) == raw && First(held, d) == held[..d]
            && Last(held + raw, maxBytes) == held[d..] + raw
  {
  }

  lemma ShortLineCounts(held: seq<byte>, raw: seq<byte>, d: nat)
    requires d <= |held| && WholeLines(held) && OneLine(raw)
    ensures LineCount(held[d..] + raw) == Max(0, LineCount(held) - Newlines(held[..d])) + 1
  {
    hide Newlines, LineCount;
    assert held == held[..d] + held[d..];
    OneLineCounts(raw);
    WholeLinesCount(held);
    NewlinesConcat(held[..d], held[d..]);
    LineCountConcat(held[d..], raw);
  }

  lemma ShortLineUnfit(sel: Selection, gone: seq<byte>, held: seq<byte>, raw: seq<byte>, d: nat)
    requires Tight(sel, gone, held) && d <= |held| && d == Max(0, |held| + |raw| - sel.maxBytes)
    ensures var gone' := gone + held[..d];
            gone' != [] ==> !Fits(sel, [gone'[|gone'| - 1]] + (held[d..] + raw))
  {
    hide LineCount;
    if d == 0 && gone != [] {
      assert gone + held[..0] == gone && held[0..] == held;
      var least := [gone[|gone| - 1]] + held;
      LargerUnfit(sel, [], least, raw);
      assert least + raw == [gone[|gone| - 1]] + (held + raw);
    }
  }

  lemma AppendTight(sel: Selection, gone: seq<byte>, held: seq<byte>, raw: seq<byte>) returns (gone': seq<byte>)
    requires 0 < sel.maxBytes && Tight(sel, gone, held) && WholeLines(held) && OneLine(raw)
    ensures Appended(sel, gone, held, raw, gone')
  {
    hide *;
    if sel.maxBytes <= |raw| { gone' := LongLineAppended(sel, gone, held, raw); }
    else { gone' := ShortLineAppended(sel, gone, held, raw); }
  }

  lemma WholeLinesCount(s: seq<byte>)
    requires WholeLines(s)
    ensures LineCount(s) == Newlines(s)
  {
  }

  lemma TightAfterDrop(sel: Selection, gone: seq<byte>, appended: seq<byte>) returns (gone': seq<byte>)
    requires 0 < sel.maxLines && |appended| <= sel.maxBytes
    requires gone != [] ==> !Fits(sel, [gone[|gone| - 1]] + appended)
    ensures var r := DropLines(appended, LineCount(appended), sel.maxLines);
            gone' + r.0 == gone + appended && Tight(sel, gone', r.0) && r.1 == LineCount(r.0)
  {
    hide LineCount, DropLines;
    var more := DropLinesTight(appended, sel.maxLines);
    gone' := gone + more;
    if more == [] {
      assert gone' == gone;
      assert DropLines(appended, LineCount(appended), sel.maxLines).0 == appended;
    } else {
      assert gone'[|gone'| - 1] == more[|more| - 1];
    }
  }

  /** Bytes whose edges text mode leaves alone. */
  predicate Plain(sel: Selection, s: seq<byte>) { sel.preserveRawPageBytes || Ascii(s) }

  lemma AddTailPlain(
    sel: Selection, held: seq<byte>, kept: nat, cut: bool, line: seq<byte>, rawLineBytes: nat, final: bool)
    requires line != [] && Plain(sel, line) && Plain(sel, held)
    ensures var appended := Last(held + line, sel.maxBytes);
            var dropped := |held| + |line| - |appended|;
            var count := Max(0, kept - Newlines(First(held, dropped))) + 1;
            var left := DropLines(appended, count, sel.maxLines);
            var a := AddTail(sel, held, kept, cut, line, rawLineBytes, final);
            a.selected == left.0 && a.keptLines == left.1 && !a.full
  {
    hide DropLines, Newlines, SafeLength;
    assert line[..|line|] == line;
    assert line[0..] == line;
    var appended := Last(held + line, sel.maxBytes);
    assert appended[0..] == appended;
    if !sel.preserveRawPageBytes {
      AsciiIsSafe(line);
      assert Ascii(appended);
    }
  }

  ghost predicate TailKeeps(sel: Selection, v: View, gone: seq<byte>)
  {
    !v.full && Tight(sel, gone, v.selected) && v.keptLines == LineCount(v.selected)
  }

  lemma AddTailKeeps(sel: Selection, v: View, gone: seq<byte>, raw: seq<byte>, final: bool) returns (gone': seq<byte>)
    requires 0 < sel.maxBytes && 0 < sel.maxLines && sel.mode == Tail
    requires TailKeeps(sel, v, gone) && WholeLines(v.selected) && OneLine(raw)
    requires Plain(sel, v.selected) && Plain(sel, raw)
    ensures var r := Add(sel, v, Last(raw, sel.maxBytes), |raw|, final).0;
            TailKeeps(sel, r, gone') && gone' + r.selected == gone + v.selected + raw
  {
    hide LineCount, DropLines, Newlines, Fits, AddTail;
    var line := Last(raw, sel.maxBytes);
    var middle := AppendTight(sel, gone, v.selected, raw);
    AddTailPlain(sel, v.selected, v.keptLines, v.truncated, line, |raw|, final);
    gone' := TightAfterDrop(sel, middle, Last(v.selected + line, sel.maxBytes));
  }

  lemma FinishTail(sel: Selection, v: View, gone: seq<byte>, raw: seq<byte>, final: bool) returns (gone': seq<byte>)
    requires 0 < sel.maxBytes && 0 < sel.maxLines && sel.mode == Tail && sel.initialLineSkipBytes == 0
    requires TailKeeps(sel, v, gone) && WholeLines(v.selected) && OneLine(raw)
    requires Plain(sel, v.selected) && Plain(sel, raw)
    ensures var r := FinishLine(sel, v, raw, final);
            TailKeeps(sel, r, gone') && gone' + r.selected == gone + v.selected + PassedLine(sel, v.lines, raw)
  {
    hide LineCount, Tight, Add;
    assert Offered(sel, v.lines, raw) == raw;
    var w := v.(completed := v.completed + |raw|, lines := v.lines + 1, matched := v.matched + 1);
    if sel.LineMatches(Content(raw)) {
      gone' := AddTailKeeps(sel, w, gone, raw, final);
    } else {
      gone' := gone;
    }
  }

  lemma PendingIsOneLine(s: seq<byte>)
    ensures OneLine(Pending(s) + [NEWLINE]) && (Pending(s) != [] ==> OneLine(Pending(s)))
    ensures Ascii(s) ==> Ascii(Pending(s))
  {
    PendingIsLastLine(s);
    assert (Pending(s) + [NEWLINE])[..|Pending(s)|] == Pending(s);
  }

  /** The passing lines are whole, and ASCII when the input is. */
  lemma {:induction false} PassedWhole(sel: Selection, s: seq<byte>)
    requires sel.initialLineSkipBytes == 0
    ensures WholeLines(Passed(sel, s)) && (Ascii(s) ==> Ascii(Passed(sel, s)))
  {
    hide PassedLine, Pending, Passed;
    if s == [] {
      PassedNothing(sel);
    } else {
      var before, b := s[..|s| - 1], s[|s| - 1];
      PassedWhole(sel, before);
      assert before + [b] == s;
      PassedWholeByte(sel, before, b);
    }
  }

  lemma PassedWholeByte(sel: Selection, s: seq<byte>, b: byte)
    requires sel.initialLineSkipBytes == 0
    requires WholeLines(Passed(sel, s)) && (Ascii(s) ==> Ascii(Passed(sel, s)))
    ensures WholeLines(Passed(sel, s + [b])) && (Ascii(s + [b]) ==> Ascii(Passed(sel, s + [b])))
  {
    hide PassedLine, Pending, Passed;
    PassedByte(sel, s, b);
    if b == NEWLINE {
      var line := Pending(s) + [NEWLINE];
      PendingIsOneLine(s);
      PassedLineIs(sel, Newlines(s), line);
      if Ascii(s + [b]) { assert s == (s + [b])[..|s|]; assert Ascii(s); }
    } else if Ascii(s + [b]) {
      assert s == (s + [b])[..|s|];
    }
  }

  lemma PassedNothing(sel: Selection)
    ensures Passed(sel, []) == []
  {
  }

  lemma PassedLineIs(sel: Selection, lines: nat, raw: seq<byte>)
    requires sel.initialLineSkipBytes == 0
    ensures PassedLine(sel, lines, raw) == [] || PassedLine(sel, lines, raw) == raw
  {
  }

  lemma SuffixKept(gone: seq<byte>, x: seq<byte>, whole: seq<byte>)
    requires gone + x == whole
    ensures (WholeLines(whole) ==> WholeLines(x)) && (Ascii(whole) ==> Ascii(x))
  {
    forall i | 0 <= i < |x| ensures x[i] == whole[|gone| + i] {}
  }

  lemma {:induction false} ThroughTail(sel: Selection, s: seq<byte>) returns (gone: seq<byte>)
    requires 0 < sel.maxBytes && 0 < sel.maxLines && sel.mode == Tail && sel.initialLineSkipBytes == 0
    requires Plain(sel, s)
    ensures TailKeeps(sel, Through(sel, s), gone) && gone + Through(sel, s).selected == Passed(sel, s)
  {
    hide FinishLine, PassedLine;
    if s == [] {
      gone := [];
    } else {
      var before, b := s[..|s| - 1], s[|s| - 1];
      assert before + [b] == s;
      assert Plain(sel, before);
      gone := ThroughTail(sel, before);
      ThroughByte(sel, before, b);
      PassedByte(sel, before, b);
      if b == NEWLINE { gone := ThroughTailLine(sel, before, gone, Pending(before) + [NEWLINE], false); }
    }
  }

  /** One more line, complete or flushed at the end. */
  lemma ThroughTailLine(sel: Selection, s: seq<byte>, gone: seq<byte>, raw: seq<byte>, final: bool)
    returns (gone': seq<byte>)
    requires 0 < sel.maxBytes && 0 < sel.maxLines && sel.mode == Tail && sel.initialLineSkipBytes == 0
    requires Plain(sel, s)
    requires TailKeeps(sel, Through(sel, s), gone) && gone + Through(sel, s).selected == Passed(sel, s)
    requires raw == Pending(s) + [NEWLINE] || (raw == Pending(s) && raw != [])
    ensures var r := FinishLine(sel, Through(sel, s), raw, final);
            TailKeeps(sel, r, gone') && gone' + r.selected == Passed(sel, s) + PassedLine(sel, Newlines(s), raw)
  {
    hide FinishLine, PassedLine, Through, Passed, Pending, TailKeeps, Newlines;
    ThroughAccounted(sel, s);
    PassedWhole(sel, s);
    PendingIsOneLine(s);
    SuffixKept(gone, Through(sel, s).selected, Passed(sel, s));
    gone' := FinishTail(sel, Through(sel, s), gone, raw, final);
  }

  /** Tail mode: the longest suffix of the passing lines within both budgets. */
  lemma TailIsLongestSuffix(sel: Selection, s: seq<byte>, final: bool)
    requires 0 < sel.maxBytes && 0 < sel.maxLines && sel.mode == Tail && sel.initialLineSkipBytes == 0
    requires Plain(sel, s)
    ensures var v := Ended(sel, s, final);
            LongestSuffix(sel, v.selected, PassedInAll(sel, s)) && v.keptLines == LineCount(v.selected)
  {
    hide FinishLine, PassedLine, Through, Passed, LongestSuffix, Tight;
    var gone := ThroughTail(sel, s);
    if Pending(s) != [] {
      gone := ThroughTailLine(sel, s, gone, Pending(s), final);
    }
    TightIsLongest(sel, gone, Ended(sel, s, final).selected);
  }

  // ---- head ----

  /** Nothing that starts with `x` fits with one byte more. */
  ghost predicate Closed(sel: Selection, x: seq<byte>)
  {
    |x| == sel.maxBytes || (LineCount(x) == sel.maxLines && x != [] && x[|x| - 1] == NEWLINE)
  }

  lemma ClosedIsLongest(sel: Selection, x: seq<byte>, whole: seq<byte>)
    requires Fits(sel, x) && x <= whole && (x == whole || Closed(sel, x))
    ensures LongestPrefix(sel, x, whole)
  {
    hide LineCount;
    forall m | |x| < m <= |whole| ensures !Fits(sel, whole[..m]) {
      assert whole[..m] == x + whole[|x|..m];
      LineCountConcat(x, whole[|x|..m]);
      SomeLine(whole[|x|..m]);
      if x != [] && x[|x| - 1] == NEWLINE { WholeLinesCount(x); }
    }
    assert x == whole[..|x|];
  }

  ghost predicate HeadKeeps(sel: Selection, v: View, whole: seq<byte>)
  {
    && v.selected <= whole && Fits(sel, v.selected) && v.keptLines == LineCount(v.selected)
    && (v.full ==> Closed(sel, v.selected))
    && (!v.full ==> v.selected == whole && |whole| < sel.maxBytes && v.keptLines < sel.maxLines)
  }

  lemma AddHeadKeeps(sel: Selection, held: seq<byte>, kept: nat, cut: bool, raw: seq<byte>, final: bool)
    requires !sel.Filtering() && OneLine(raw) && Plain(sel, raw) && WholeLines(held)
    requires |held| < sel.maxBytes && kept == LineCount(held) < sel.maxLines
    ensures var a := AddHead(sel, held, kept, cut, First(raw, sel.maxBytes), |raw|, final);
            && a.selected <= held + raw && Fits(sel, a.selected) && a.keptLines == LineCount(a.selected)
            && (a.selected == held + raw || |a.selected| == sel.maxBytes)
            && (a.full <==> |a.selected| >= sel.maxBytes || a.keptLines >= sel.maxLines)
  {
    hide LineCount, SafeLength;
    var n := Min(|raw|, sel.maxBytes - |held|);
    var proposed := raw[..n];
    HeadProposal(sel, raw, n);
    assert First(First(raw, sel.maxBytes), sel.maxBytes - |held|) == proposed;
    assert proposed[..|proposed|] == proposed;
    WholeLinesCount(held);
    LineCountConcat(held, proposed);
  }

  lemma HeadProposal(sel: Selection, raw: seq<byte>, n: nat)
    requires OneLine(raw) && Plain(sel, raw) && 0 < n <= |raw|
    ensures LineCount(raw[..n]) == 1 && (sel.preserveRawPageBytes || SafeLength(raw[..n]) == n)
  {
    hide LineCount, SafeLength;
    if !sel.preserveRawPageBytes { AsciiIsSafe(raw[..n]); }
    assert raw[..n][..n - 1] == raw[..|raw| - 1][..n - 1];
    OneLineCounts(raw[..n]);
  }

  lemma FinishHead(sel: Selection, v: View, whole: seq<byte>, raw: seq<byte>, final: bool)
    requires !sel.Filtering() && sel.mode == Head && sel.initialLineSkipBytes == 0
    requires HeadKeeps(sel, v, whole) && WholeLines(whole) && OneLine(raw) && Plain(sel, raw)
    ensures var r := FinishLine(sel, v, raw, final);
            && r.selected <= whole + raw && Fits(sel, r.selected) && r.keptLines == LineCount(r.selected)
            && (r.selected == whole + raw || Closed(sel, r.selected))
            && (WholeLines(raw) ==> HeadKeeps(sel, r, whole + raw))
  {
    hide LineCount, AddHead;
    assert Offered(sel, v.lines, raw) == raw;
    var w := v.(completed := v.completed + |raw|, lines := v.lines + 1, matched := v.matched + 1);
    if !v.full {
      AddHeadKeeps(sel, v.selected, v.keptLines, v.truncated, raw, final);
      assert (whole + raw)[|whole + raw| - 1] == raw[|raw| - 1];
    }
  }

  lemma {:induction false} ThroughHead(sel: Selection, s: seq<byte>)
    requires 0 < sel.maxBytes && 0 < sel.maxLines && !sel.Filtering() && sel.mode == Head
    requires sel.initialLineSkipBytes == 0 && Plain(sel, s)
    ensures HeadKeeps(sel, Through(sel, s), s[..|s| - |Pending(s)|])
  {
    hide FinishLine, Pending, HeadKeeps, Through;
    if s == [] {
      ThroughHeadNothing(sel);
    } else {
      var before, b := s[..|s| - 1], s[|s| - 1];
      assert before + [b] == s;
      assert Plain(sel, before);
      ThroughHead(sel, before);
      ThroughHeadByte(sel, before, b);
    }
  }

  lemma ThroughHeadByte(sel: Selection, s: seq<byte>, b: byte)
    requires 0 < sel.maxBytes && 0 < sel.maxLines && !sel.Filtering() && sel.mode == Head
    requires sel.initialLineSkipBytes == 0 && Plain(sel, s + [b])
    requires HeadKeeps(sel, Through(sel, s), s[..|s| - |Pending(s)|])
    ensures var t := s + [b]; HeadKeeps(sel, Through(sel, t), t[..|t| - |Pending(t)|])
  {
    hide *;
    ThroughByte(sel, s, b);
    if b == NEWLINE {
      LastLineEnds(sel, s);
      PendingIsOneLine(s);
      FinishHead(sel, Through(sel, s), s[..|s| - |Pending(s)|], Pending(s) + [NEWLINE], false);
    } else {
      CutBehind(s, [b], |s| - |Pending(s)|);
    }
  }

  /** A newline completes the last line, behind whole lines. */
  lemma LastLineEnds(sel: Selection, s: seq<byte>)
    requires Plain(sel, s + [NEWLINE])
    ensures var t, done, line := s + [NEWLINE], s[..|s| - |Pending(s)|], Pending(s) + [NEWLINE];
            WholeLines(done) && Plain(sel, line) && WholeLines(line) && done + line == t[..|t|]
  {
    hide Pending, Plain;
    PendingIsLastLine(s);
    EndsIn(s, Pending(s), [NEWLINE]);
    PlainEnd(sel, s[..|s| - |Pending(s)|], Pending(s) + [NEWLINE]);
  }

  lemma EndsIn(s: seq<byte>, end: seq<byte>, more: seq<byte>)
    requires |end| <= |s| && s[|s| - |end|..] == end
    ensures s[..|s| - |end|] + (end + more) == s + more == (s + more)[..|s + more|]
  {
    assert s == s[..|s| - |end|] + end;
  }

  lemma PlainEnd(sel: Selection, front: seq<byte>, end: seq<byte>)
    requires Plain(sel, front + end)
    ensures Plain(sel, end)
  {
    assert (front + end)[|front|..] == end;
  }

  lemma CutBehind(s: seq<byte>, more: seq<byte>, n: nat)
    requires n <= |s|
    ensures (s + more)[..n] == s[..n]
  {
  }

  lemma ThroughHeadNothing(sel: Selection)
    requires 0 < sel.maxBytes && 0 < sel.maxLines
    ensures HeadKeeps(sel, Through(sel, []), []) && Pending([]) == []
  {
  }

  /** Unfiltered head mode: the longest prefix of the input within both budgets. */
  lemma HeadIsLongestPrefix(sel: Selection, s: seq<byte>, final: bool)
    requires 0 < sel.maxBytes && 0 < sel.maxLines && !sel.Filtering() && sel.mode == Head
    requires sel.initialLineSkipBytes == 0 && Plain(sel, s)
    ensures var v := Ended(sel, s, final);
            LongestPrefix(sel, v.selected, s) && v.keptLines == LineCount(v.selected)
  {
    hide FinishLine, Pending, LongestPrefix, LineCount, Through;
    ThroughHead(sel, s);
    PendingIsLastLine(s);
    PendingIsOneLine(s);
    var done := s[..|s| - |Pending(s)|];
    assert s == done + Pending(s);
    if Pending(s) != [] { FinishHead(sel, Through(sel, s), done, Pending(s), final); }
    ClosedIsLongest(sel, Ended(sel, s, final).selected, s);
  }

  // ---- the text-mode exception ----

  /**
   * Text mode, a line too long for the window whose kept tail starts inside a
   * code point: dropping the stray byte frees room, and the ring fills it with
   * the end of an older line. What is kept then has a gap in it.
   */
  lemma TailGap(sel: Selection, v: View, raw: seq<byte>)
    requires sel.mode == Tail && !sel.preserveRawPageBytes && !v.full && v.keptLines < sel.maxLines
    requires v.selected != [] && WholeLines(v.selected) && sel.LineMatches(Content(raw)) && 0 < v.lines
    requires 2 < sel.maxBytes < |raw| && raw[|raw| - 1] == NEWLINE
    requires LeadingContinuations(Last(raw, sel.maxBytes)) == 1
    ensures var r := FinishLine(sel, v, raw, false);
            r.selected == [NEWLINE] + Last(raw, sel.maxBytes)[1..] && r.selected != Last(raw, sel.maxBytes)
  {
    hide DropLines, SafeLength, LeadingContinuations, Newlines;
    var line := Last(raw, sel.maxBytes);
    NewlineEndsSafely(line);
    assert line[..|line|] == line && line[1..|line|] == line[1..];
    var appended := Last(v.selected + line[1..], sel.maxBytes);
    assert appended == [NEWLINE] + line[1..];
    NoLeadingContinuations(appended);
    assert appended[0..] == appended;
    FewLinesStay(appended, sel.maxLines);
  }

  lemma NoLeadingContinuations(s: seq<byte>)
    requires s != [] && !IsContinuation(s[0])
    ensures LeadingContinuations(s) == 0
  {
  }

  lemma FewLinesStay(s: seq<byte>, maxLines: nat)
    ensures forall kept: nat :: kept <= maxLines ==> DropLines(s, kept, maxLines) == (s, kept)
  {
  }

  /** An input that shows the gap: a short line, then one of two-byte letters that is one byte too long. */
  lemma TailGapInput(sel: Selection, letters: seq<byte>)
    requires sel.mode == Tail && !sel.preserveRawPageBytes && !sel.Filtering() && 2 <= sel.maxLines
    requires sel.initialLineSkipBytes == 0 && 4 <= sel.maxBytes == |letters| && NEWLINE !in letters
    requires IsContinuation(letters[1]) && !IsContinuation(letters[2])
    ensures var s := [0x61, NEWLINE] + letters + [NEWLINE];
            var kept := Through(sel, s).selected;
            |kept| == sel.maxBytes && kept != Last(s, sel.maxBytes) && !LongestSuffix(sel, kept, s)
  {
    hide FinishLine, Through, Pending, LongestSuffix, LeadingContinuations, Newlines, Selection.LineMatches, Content;
    var short, raw := [0x61, NEWLINE], letters + [NEWLINE];
    var v := TailGapStart(sel);
    TailGapThrough(sel, letters);
    assert Last(raw, sel.maxBytes) == letters[1..] + [NEWLINE];
    OneStray(letters[1..] + [NEWLINE]);
    UnfilteredMatches(sel, Content(raw));
    TailGap(sel, v, raw);
    var s := short + letters + [NEWLINE];
    assert s[|s| - |raw|..] == raw;
    LastOfLonger(raw, s, sel.maxBytes);
    NotASuffix(sel, Through(sel, s).selected, s);
  }

  lemma TailGapThrough(sel: Selection, letters: seq<byte>)
    requires NEWLINE !in letters
    ensures var short := [0x61, NEWLINE];
            Through(sel, short + letters + [NEWLINE])
            == FinishLine(sel, Through(sel, short), letters + [NEWLINE], false)
  {
    hide FinishLine, Through;
    var short := [0x61, NEWLINE];
    ThroughFragment(sel, short, letters);
    ThroughByte(sel, short + letters, NEWLINE);
    assert Pending(short) + letters == letters;
  }

  lemma LastOfLonger(x: seq<byte>, whole: seq<byte>, n: nat)
    requires n <= |x| <= |whole| && whole[|whole| - |x|..] == x
    ensures Last(whole, n) == Last(x, n)
  {
    assert x[|x| - n..] == whole[|whole| - |x|..][|x| - n..];
  }

  lemma OneStray(s: seq<byte>)
    requires 2 <= |s| && IsContinuation(s[0]) && !IsContinuation(s[1])
    ensures LeadingContinuations(s) == 1
  {
  }

  lemma NotASuffix(sel: Selection, x: seq<byte>, whole: seq<byte>)
    requires |x| <= |whole| && x != Last(whole, |x|)
    ensures !LongestSuffix(sel, x, whole)
  {
    hide Fits;
  }

  lemma TailGapStart(sel: Selection) returns (v: View)
    requires sel.mode == Tail && !sel.preserveRawPageBytes && !sel.Filtering() && 2 <= sel.maxLines
    requires sel.initialLineSkipBytes == 0 && 4 <= sel.maxBytes
    ensures v == Through(sel, [0x61, NEWLINE]) && Pending([0x61, NEWLINE]) == []
    ensures v.selected == [0x61, NEWLINE] && v.keptLines == 1 && !v.full && v.lines == 1
  {
    hide FinishLine, Through, Pending;
    assert [] + [0x61] == [0x61] && [0x61] + [NEWLINE] == [0x61, NEWLINE];
    NothingThrough(sel);
    ThroughByte(sel, [], 0x61);
    ThroughByte(sel, [0x61], NEWLINE);
    v := Through(sel, [0x61, NEWLINE]);
    TailGapFirst(sel, [0x61, NEWLINE]);
  }

  lemma TailGapFirst(sel: Selection, raw: seq<byte>)
    requires sel.mode == Tail && !sel.preserveRawPageBytes && !sel.Filtering() && 2 <= sel.maxLines
    requires sel.initialLineSkipBytes == 0 && 4 <= sel.maxBytes && raw == [0x61, NEWLINE]
    ensures var v := FinishLine(sel, Empty(), raw, false);
            v.selected == raw && v.keptLines == 1 && !v.full && v.lines == 1
  {
    hide LeadingContinuations, SafeLength, DropLines, Newlines, AddTail, Content;
    NewlinesOfNothing();
    assert Offered(sel, 0, raw) == raw == Kept(Tail, raw, sel.maxBytes) == [] + raw;
    assert First<byte>([], 0) == [];
    var w := Empty().(completed := 2, lines := 1, matched := 1);
    AddTailPlain(sel, [], 0, false, raw, 2, false);
    FewLinesStay(raw, sel.maxLines);
  }
}
