/**
 * When a text tail has a gap at its end: the last line that left one is followed by too little to push the older
 * bytes out. Without a gap the selection is the longest text that fits, and only then.
 */
module TextGaps {
  import opened Bytes
  import opened Utf8
  import opened ByteBuffers
  import opened WindowSpec
  import opened WindowEnds
  import opened WindowText

  /** No gap, or one behind which the selection ends in so many bytes and lines of the text. */
  datatype Gap = Contiguous | Behind(bytes: nat, lines: nat)

  /** One passing line opens a gap, pushes an old one out by bytes or by lines, or leaves it. */
  function NextGap(sel: Selection, passed: seq<byte>, g: Gap, raw: seq<byte>): Gap
  {
    if !GapFree(sel, passed, raw) then Behind(|WholeEnd(raw, sel.maxBytes)|, 1)
    else if g.Behind? && g.bytes + |raw| < sel.maxBytes && g.lines + 1 < sel.maxLines then
      Behind(g.bytes + |raw|, g.lines + 1)
    else Contiguous
  }

  /** The end of the text, and no longer one in whole code points fits. */
  ghost predicate Ending(sel: Selection, x: seq<byte>, passed: seq<byte>)
  {
    IsSuffix(x, passed) && Missing(sel, passed[..|passed| - |x|], x)
  }

  /** In front of its last bytes the selection has a newline where the text has none. */
  ghost predicate Broken(sel: Selection, x: seq<byte>, passed: seq<byte>, bytes: nat, lines: nat)
  {
    && 0 < bytes < |x| && bytes < |passed| && lines < sel.maxLines
    && x[|x| - bytes..] == passed[|passed| - bytes..] && LineCount(x[|x| - bytes..]) == lines
    && x[|x| - bytes - 1] == NEWLINE && passed[|passed| - bytes - 1] != NEWLINE
    && Ending(sel, x[|x| - bytes..], passed)
  }

  ghost predicate Stands(sel: Selection, x: seq<byte>, passed: seq<byte>, g: Gap)
  {
    match g
    case Contiguous => Ending(sel, x, passed)
    case Behind(bytes, lines) => Broken(sel, x, passed, bytes, lines)
  }

  /** A broken selection is no end of the text. */
  lemma BrokenIsNoSuffix(sel: Selection, x: seq<byte>, passed: seq<byte>, bytes: nat, lines: nat)
    requires Broken(sel, x, passed, bytes, lines)
    ensures !IsSuffix(x, passed)
  {
    hide LineCount, Missing;
    assert |x| <= |passed| ==> passed[|passed| - |x|..][|x| - bytes - 1] == passed[|passed| - bytes - 1];
  }

  lemma EndingFrom(sel: Selection, lost: seq<byte>, x: seq<byte>)
    requires Missing(sel, lost, x)
    ensures Ending(sel, x, lost + x)
  {
    hide Missing;
    assert (lost + x)[..|lost|] == lost;
  }

  // ---- a line that opens a gap ----

  lemma GapOpens(sel: Selection, v: View, passed: seq<byte>, raw: seq<byte>, final: bool)
    requires Budgets(sel) && HoldsText(sel, v) && WholeLines(v.selected) && TextLine(v.selected, raw, final)
    requires !GapFree(sel, v.selected, raw)
    ensures var x := Add(sel, v, Last(raw, sel.maxBytes), |raw|, final).0.selected;
            Broken(sel, x, passed + raw, |WholeEnd(raw, sel.maxBytes)|, 1)
  {
    hide Shaped, Add, LineCount, WholeEnd, Textual, HoldsText, LeadingContinuations, AddsText, Broken, Older;
    hide OneLine, WholeLines, IsSuffix;
    var held, chosen, older := v.selected, WholeEnd(raw, sel.maxBytes), Older(sel, v.selected, raw);
    HeldIsText(sel, v);
    var gone := AddText(sel, v, raw, final);
    ChosenIsLine(sel, held, raw, final);
    ChosenLength(sel, held, raw, final);
    OpensBehind(sel, v, passed, raw, gone, Add(sel, v, Last(raw, sel.maxBytes), |raw|, final).0);
  }

  lemma OpensBehind(sel: Selection, v: View, passed: seq<byte>, raw: seq<byte>, gone: seq<byte>, x: View)
    requires Budgets(sel) && Textual(raw) && OneLine(raw) && !GapFree(sel, v.selected, raw)
    requires AddsText(sel, v, raw, gone, x)
    requires var chosen, older := WholeEnd(raw, sel.maxBytes), Older(sel, v.selected, raw);
             && chosen != [] && OneLine(chosen) && IsSuffix(chosen, raw) && |chosen| < sel.maxBytes
             && WholeLines(older) && older != []
    ensures Broken(sel, x.selected, passed + raw, |WholeEnd(raw, sel.maxBytes)|, 1)
  {
    hide Shaped, LineCount, WholeEnd, Textual, Missing, HoldsText, LeadingContinuations, Ending, Older;
    hide Broken;
    var chosen, older := WholeEnd(raw, sel.maxBytes), Older(sel, v.selected, raw);
    EndStays(older, chosen, gone, x.selected);
    OneLineCounts(chosen);
    ChosenIsEnding(sel, passed, raw);
    var front := LineGoesOn(passed, raw, chosen);
    BrokenHere(sel, x.selected, older[|gone|..], chosen, front);
  }

  lemma LineGoesOn(passed: seq<byte>, raw: seq<byte>, chosen: seq<byte>) returns (front: seq<byte>)
    requires OneLine(raw) && IsSuffix(chosen, raw) && 0 < |chosen| < |raw|
    ensures passed + raw == front + chosen && front != [] && front[|front| - 1] != NEWLINE
  {
    var n := |raw| - |chosen|;
    front := passed + raw[..n];
    assert raw == raw[..n] + chosen;
    assert raw[n - 1] == raw[..|raw| - 1][n - 1];
  }

  lemma HeldIsText(sel: Selection, v: View)
    requires HoldsText(sel, v)
    ensures Shaped(v.selected) && Fits(sel, v.selected)
  {
  }

  lemma BrokenHere(sel: Selection, x: seq<byte>, rest: seq<byte>, tail: seq<byte>, before: seq<byte>)
    requires x == rest + tail && rest != [] && rest[|rest| - 1] == NEWLINE && tail != []
    requires before != [] && before[|before| - 1] != NEWLINE && LineCount(tail) < sel.maxLines
    requires Ending(sel, tail, before + tail)
    ensures Broken(sel, x, before + tail, |tail|, LineCount(tail))
  {
    hide LineCount, Ending;
    assert x[|x| - |tail|..] == tail && (before + tail)[|before|..] == tail;
  }

  lemma ChosenIsEnding(sel: Selection, passed: seq<byte>, raw: seq<byte>)
    requires Budgets(sel) && Textual(raw) && sel.maxBytes < |raw|
    ensures Ending(sel, WholeEnd(raw, sel.maxBytes), passed + raw)
  {
    hide Shaped, WholeEnd, Textual, LineCount;
    var chosen := WholeEnd(raw, sel.maxBytes);
    WholeEndOf(raw, sel.maxBytes);
    var n := |raw| - |chosen|;
    var lost := passed + raw[..n];
    assert passed + raw == lost + chosen;
    forall g | 0 <= g < |lost| && !IsContinuation(lost[g]) ensures !Fits(sel, lost[g..] + chosen) {
      if |passed| <= g { assert raw[g - |passed|] == lost[g]; }
    }
    EndingFrom(sel, lost, chosen);
  }

  // ---- lines behind a gap ----

  /** A broken selection and the text, each cut where they part. */
  ghost predicate Parted(
    sel: Selection, held: seq<byte>, passed: seq<byte>, rest: seq<byte>, gone: seq<byte>, tail: seq<byte>)
  {
    && held == rest + tail && passed == gone + tail && rest != [] && gone != [] && tail != []
    && rest[|rest| - 1] == NEWLINE && gone[|gone| - 1] != NEWLINE
    && Shaped(tail) && WholeLines(tail) && LineCount(tail) < sel.maxLines && Missing(sel, gone, tail)
  }

  lemma BrokenParts(sel: Selection, held: seq<byte>, passed: seq<byte>, bytes: nat, lines: nat)
    returns (rest: seq<byte>, gone: seq<byte>, tail: seq<byte>)
    requires Broken(sel, held, passed, bytes, lines) && Shaped(held) && WholeLines(held)
    ensures Parted(sel, held, passed, rest, gone, tail) && |tail| == bytes && LineCount(tail) == lines
  {
    hide Shaped, LineCount, Missing;
    var n := |held| - bytes;
    rest, tail := held[..n], held[n..];
    gone := passed[..|passed| - bytes];
    CutBehindNewline(held, n - 1);
    assert held == rest + tail && passed == gone + tail;
    assert tail[|tail| - 1] == held[|held| - 1];
  }

  lemma CountBehind(tail: seq<byte>, raw: seq<byte>)
    requires WholeLines(tail) && OneLine(raw)
    ensures LineCount(tail + raw) == LineCount(tail) + 1
  {
    hide LineCount, Newlines;
    WholeLinesCount(tail);
    OneLineCounts(raw);
    LineCountConcat(tail, raw);
  }

  lemma SuffixCounts(x: seq<byte>, whole: seq<byte>)
    requires IsSuffix(x, whole)
    ensures LineCount(x) <= LineCount(whole)
  {
    hide LineCount;
    var n := |whole| - |x|;
    assert whole == whole[..n] + x;
    LineCountConcat(whole[..n], x);
  }

  /** What the window could keep of older text reaches behind the gap exactly if there is room for it. */
  lemma OlderReaches(held: seq<byte>, rest: seq<byte>, tail: seq<byte>, n: nat)
    requires Shaped(held) && held == rest + tail && rest != [] && rest[|rest| - 1] == NEWLINE
    ensures |tail| < n ==> |tail| < |WholeEnd(held, n)|
    ensures n <= |tail| ==> WholeEnd(held, n) == WholeEnd(tail, n)
  {
    hide Shaped, WholeEnd, Textual, LeadingContinuations;
    WholeIsTextual(held);
    WholeEndOf(held, n);
    var j := |rest| - 1;
    assert held[j] == NEWLINE && !IsContinuation(held[j]);
    if n <= |tail| { SameLast(rest, tail, n); }
  }

  lemma SameLast(rest: seq<byte>, tail: seq<byte>, n: nat)
    requires n <= |tail|
    ensures WholeEnd(rest + tail, n) == WholeEnd(tail, n)
  {
    hide LeadingContinuations;
    assert (rest + tail)[|rest| + |tail| - n..] == tail[|tail| - n..];
  }

  /** With room for bytes and lines, older bytes stay in front of the gap. */
  lemma GapStays(
    sel: Selection, held: seq<byte>, passed: seq<byte>, rest: seq<byte>, gone: seq<byte>, tail: seq<byte>,
    raw: seq<byte>, dropped: seq<byte>, x: seq<byte>)
    requires Parted(sel, held, passed, rest, gone, tail) && Shaped(held) && OneLine(raw)
    requires |tail| + |raw| < sel.maxBytes && LineCount(tail) + 1 < sel.maxLines
    requires Dropped(sel, WholeEnd(held, sel.maxBytes - |raw|), raw, dropped, x)
    ensures Broken(sel, x, passed + raw, |tail| + |raw|, LineCount(tail) + 1)
  {
    hide Shaped, WholeEnd, LineCount, Missing, LeadingContinuations, Newlines;
    var older := WholeEnd(held, sel.maxBytes - |raw|);
    OlderReaches(held, rest, tail, sel.maxBytes - |raw|);
    OlderEnds(held, rest, tail, sel.maxBytes - |raw|);
    EndStays(older, raw, dropped, x);
    CountBehind(tail, raw);
    var m := |older| - |tail|;
    if |dropped| >= m {
      assert |dropped| > 0;
      DropsTooMuch(sel, older, tail, raw, dropped, x);
      assert false;
    }
    StillBroken(sel, x, older[|dropped|..m], gone, tail, raw);
  }

  /** The older text that reaches behind the gap ends in a newline and the text behind it. */
  lemma OlderEnds(held: seq<byte>, rest: seq<byte>, tail: seq<byte>, n: nat)
    requires Shaped(held) && held == rest + tail && rest != [] && rest[|rest| - 1] == NEWLINE
    requires |tail| < |WholeEnd(held, n)|
    ensures var older := WholeEnd(held, n); var m := |older| - |tail|;
            older[m - 1] == NEWLINE && older == older[..m] + tail && older[m..] == tail
  {
    hide Shaped, WholeEnd, Textual, LeadingContinuations;
    WholeIsTextual(held);
    WholeEndOf(held, n);
    var older := WholeEnd(held, n);
    var m := |older| - |tail|;
    assert older == held[|held| - |older|..];
    assert older[m - 1] == held[|rest| - 1];
    assert older[m..] == held[|rest|..] == tail;
  }

  lemma DropsTooMuch(
    sel: Selection, older: seq<byte>, tail: seq<byte>, raw: seq<byte>, dropped: seq<byte>, x: seq<byte>)
    requires Dropped(sel, older, raw, dropped, x) && |tail| < |older| && dropped != []
    requires var m := |older| - |tail|; older[m - 1] == NEWLINE && older[m..] == tail && m <= |dropped|
    requires x == older[|dropped|..] + raw && WholeLines(tail) && OneLine(raw)
    ensures sel.maxLines < LineCount(tail) + 2
    ensures |older| - |tail| < |dropped| ==> sel.maxLines < LineCount(tail) + 1
  {
    hide LineCount, Newlines, WholeLines, OneLine;
    var m, d := |older| - |tail|, |dropped| - 1;
    assert dropped[d] == older[d] by { assert (older + raw)[d] == (dropped + x)[d]; }
    var least := [dropped[d]] + x;
    assert least == older[d..] + raw;
    CountBehind(tail, raw);
    OneMoreLine(tail + raw);
    EndOfOlder(older, tail, raw, m, d);
    SuffixCounts(least, [NEWLINE] + (tail + raw));
    if m < |dropped| { SuffixCounts(least, tail + raw); }
  }

  lemma EndOfOlder(older: seq<byte>, tail: seq<byte>, raw: seq<byte>, m: nat, d: nat)
    requires 0 < m <= |older| && older[m - 1] == NEWLINE && older[m..] == tail && m - 1 <= d < |older|
    ensures IsSuffix(older[d..] + raw, [NEWLINE] + (tail + raw))
    ensures m <= d ==> IsSuffix(older[d..] + raw, tail + raw)
  {
    assert older[m - 1..] == [NEWLINE] + tail;
    assert ([NEWLINE] + tail) + raw == [NEWLINE] + (tail + raw);
    hide IsSuffix;
    LaterEnd(older, m - 1, d, raw);
    if m <= d { LaterEnd(older, m, d, raw); }
  }

  lemma LaterEnd(older: seq<byte>, k: nat, d: nat, raw: seq<byte>)
    requires k <= d <= |older|
    ensures IsSuffix(older[d..] + raw, older[k..] + raw)
  {
    var whole := older[k..] + raw;
    assert whole[d - k..] == older[d..] + raw;
  }

  lemma StillBroken(sel: Selection, x: seq<byte>, front: seq<byte>, gone: seq<byte>, tail: seq<byte>, raw: seq<byte>)
    requires x == front + tail + raw && front != [] && front[|front| - 1] == NEWLINE && gone != []
    requires gone[|gone| - 1] != NEWLINE && tail != [] && WholeLines(tail) && OneLine(raw)
    requires LineCount(tail) + 1 < sel.maxLines && Missing(sel, gone, tail)
    ensures Broken(sel, x, gone + tail + raw, |tail| + |raw|, LineCount(tail) + 1)
  {
    hide LineCount, Ending, Newlines, Fits;
    CountBehind(tail, raw);
    forall g | 0 <= g < |gone| && !IsContinuation(gone[g]) ensures !Fits(sel, gone[g..] + (tail + raw)) {
      LargerUnfit(sel, [], gone[g..] + tail, raw);
      assert gone[g..] + (tail + raw) == (gone[g..] + tail) + raw;
      assert [] + (gone[g..] + tail) == gone[g..] + tail;
    }
    EndingFrom(sel, gone, tail + raw);
    assert gone + tail + raw == gone + (tail + raw) && x == front + (tail + raw);
    BrokenHere(sel, x, front, tail + raw, gone);
  }

  /** Without that room the older bytes go, and what is left is the longest end of the text. */
  lemma GapHeals(
    sel: Selection, held: seq<byte>, passed: seq<byte>, rest: seq<byte>, gone: seq<byte>, tail: seq<byte>,
    raw: seq<byte>, dropped: seq<byte>, x: seq<byte>)
    requires Parted(sel, held, passed, rest, gone, tail) && Shaped(held) && OneLine(raw) && |raw| <= sel.maxBytes
    requires sel.maxBytes <= |tail| + |raw| || sel.maxLines <= LineCount(tail) + 1
    requires Dropped(sel, WholeEnd(held, sel.maxBytes - |raw|), raw, dropped, x) && Fits(sel, x)
    ensures Ending(sel, x, passed + raw)
  {
    hide Shaped, WholeEnd, LineCount, Missing, LeadingContinuations, Newlines, Dropped;
    var n := sel.maxBytes - |raw|;
    OlderReaches(held, rest, tail, n);
    if n <= |tail| {
      HealedEnding(sel, gone, tail, raw, dropped, x);
    } else {
      OlderEnds(held, rest, tail, n);
      LinesHeal(sel, WholeEnd(held, n), tail, raw, dropped, x);
      HealedEnding(sel, gone, tail, raw, [], x);
    }
  }

  lemma HealedEnding(
    sel: Selection, gone: seq<byte>, tail: seq<byte>, raw: seq<byte>, dropped: seq<byte>, x: seq<byte>)
    requires Shaped(tail) && Missing(sel, gone, tail) && 0 < |raw| <= sel.maxBytes
    requires Dropped(sel, WholeEnd(tail, sel.maxBytes - |raw|), raw, dropped, x)
    ensures Ending(sel, x, gone + tail + raw)
  {
    hide Shaped, WholeEnd, LineCount, Missing, LeadingContinuations, Textual;
    hide IsSuffix, Dropped, Ending;
    var older := WholeEnd(tail, sel.maxBytes - |raw|);
    WholeIsTextual(tail);
    WholeEndOf(tail, sel.maxBytes - |raw|);
    DroppedOlder(sel, older, raw, dropped, x);
    SuffixOfSuffix(older, |dropped|, tail, raw);
    var lost := LostBefore(x, gone, tail + raw);
    assert gone + (tail + raw) == gone + tail + raw;
    BesideOlder(sel, gone, tail, raw, dropped, x, lost);
    EndingFrom(sel, lost, x);
  }

  /** A full line budget lets only the text behind the gap stay. */
  lemma LinesHeal(
    sel: Selection, older: seq<byte>, tail: seq<byte>, raw: seq<byte>, dropped: seq<byte>, x: seq<byte>)
    requires Dropped(sel, older, raw, dropped, x) && |tail| < |older| && Fits(sel, x)
    requires var m := |older| - |tail|; older[m - 1] == NEWLINE && older[m..] == tail
    requires WholeLines(tail) && tail != [] && OneLine(raw) && LineCount(tail) < sel.maxLines <= LineCount(tail) + 1
    requires |tail| < sel.maxBytes - |raw| && Shaped(tail)
    ensures x == tail + raw && Dropped(sel, WholeEnd(tail, sel.maxBytes - |raw|), raw, [], x)
  {
    hide *;
    var m := |older| - |tail|;
    LineIsNotEmpty(raw);
    DroppedOlder(sel, older, raw, dropped, x);
    if |dropped| < m { KeepsTooMuch(sel, older, tail, raw, |dropped|); }
    if m < |dropped| { DropsTooMuch(sel, older, tail, raw, dropped, x); }
    assert |dropped| == m;
    WholeIsTextual(tail);
    WholeEndOf(tail, sel.maxBytes - |raw|);
    NothingDropped(sel, tail, raw);
  }

  lemma LineIsNotEmpty(raw: seq<byte>)
    requires OneLine(raw)
    ensures raw != []
  {
  }

  lemma KeepsTooMuch(sel: Selection, older: seq<byte>, tail: seq<byte>, raw: seq<byte>, d: nat)
    requires |tail| < |older| && d < |older| - |tail|
    requires var m := |older| - |tail|; older[m - 1] == NEWLINE && older[m..] == tail
    requires WholeLines(tail) && OneLine(raw) && sel.maxLines <= LineCount(tail) + 1
    ensures !Fits(sel, older[d..] + raw)
  {
    hide LineCount, Newlines;
    var m, x := |older| - |tail|, older[d..] + raw;
    CountBehind(tail, raw);
    OneMoreLine(tail + raw);
    var least := [NEWLINE] + (tail + raw);
    assert older[d..] == older[d..m - 1] + ([NEWLINE] + tail);
    assert x == older[d..m - 1] + least;
    assert x[|x| - |least|..] == least;
    SuffixCounts(least, x);
  }

  lemma NothingDropped(sel: Selection, tail: seq<byte>, raw: seq<byte>)
    requires tail != [] && LineCount(tail) < sel.maxLines
    ensures Dropped(sel, tail, raw, [], tail + raw)
  {
    hide Newlines;
    SomeLine(tail);
    assert [] + (tail + raw) == tail + raw;
  }

  // ---- one line, whatever it does ----

  /** What one passing line leaves is what `NextGap` says. */
  lemma AddKeepsGap(sel: Selection, v: View, passed: seq<byte>, g: Gap, raw: seq<byte>, final: bool)
    requires Budgets(sel) && HoldsText(sel, v) && WholeLines(v.selected) && TextLine(v.selected, raw, final)
    requires (v.selected == [] <==> passed == []) && Stands(sel, v.selected, passed, g)
    ensures var x := Add(sel, v, Last(raw, sel.maxBytes), |raw|, final).0.selected;
            Stands(sel, x, passed + raw, NextGap(sel, passed, g, raw))
  {
    hide Shaped, Add, LineCount, WholeEnd, Textual, HoldsText, LeadingContinuations, Broken, Ending, CleanEnd;
    hide TextLine, WholeLines, Budgets;
    if !GapFree(sel, passed, raw) {
      GapOpens(sel, v, passed, raw, final);
    } else if g.Contiguous? {
      StaysContiguous(sel, v, passed, raw, final);
    } else {
      BehindGap(sel, v, passed, g, raw, final);
    }
  }

  lemma StaysContiguous(sel: Selection, v: View, passed: seq<byte>, raw: seq<byte>, final: bool)
    requires Budgets(sel) && HoldsText(sel, v) && WholeLines(v.selected) && TextLine(v.selected, raw, final)
    requires (v.selected == [] <==> passed == []) && Ending(sel, v.selected, passed) && GapFree(sel, passed, raw)
    ensures Ending(sel, Add(sel, v, Last(raw, sel.maxBytes), |raw|, final).0.selected, passed + raw)
  {
    hide Shaped, Add, LineCount, WholeEnd, Textual, HoldsText, LeadingContinuations, Missing, CleanEnd;
    hide TextLine, WholeLines, Budgets;
    var gone := passed[..|passed| - |v.selected|];
    assert passed == gone + v.selected;
    var lost := AddTextLongest(sel, v, gone, raw, final);
    EndingFrom(sel, lost, Add(sel, v, Last(raw, sel.maxBytes), |raw|, final).0.selected);
  }

  lemma BehindGap(sel: Selection, v: View, passed: seq<byte>, g: Gap, raw: seq<byte>, final: bool)
    requires Budgets(sel) && HoldsText(sel, v) && WholeLines(v.selected) && TextLine(v.selected, raw, final)
    requires g.Behind? && Broken(sel, v.selected, passed, g.bytes, g.lines) && GapFree(sel, passed, raw)
    ensures var x := Add(sel, v, Last(raw, sel.maxBytes), |raw|, final).0.selected;
            Stands(sel, x, passed + raw, NextGap(sel, passed, g, raw))
  {
    hide Shaped, Add, LineCount, WholeEnd, Textual, LeadingContinuations, Missing, HoldsText, Ending, AddsText;
    hide CleanEnd, IsSuffix;
    var held, x := v.selected, Add(sel, v, Last(raw, sel.maxBytes), |raw|, final).0;
    HeldIsText(sel, v);
    var rest, gone, tail := BrokenParts(sel, held, passed, g.bytes, g.lines);
    var dropped := AddText(sel, v, raw, final);
    ChosenIsLine(sel, held, raw, final);
    ChosenLength(sel, held, raw, final);
    AddedParts(sel, v, raw, dropped, x);
    if sel.maxBytes < |raw| {
      LinesWereFew(sel, tail);
      EndStays(Older(sel, held, raw), WholeEnd(raw, sel.maxBytes), dropped, x.selected);
      ChosenIsEnding(sel, passed, raw);
      assert |Older(sel, held, raw)| == 0;
      assert x.selected == WholeEnd(raw, sel.maxBytes);
    } else if g.bytes + |raw| < sel.maxBytes && g.lines + 1 < sel.maxLines {
      GapStays(sel, held, passed, rest, gone, tail, raw, dropped, x.selected);
    } else {
      GapHeals(sel, held, passed, rest, gone, tail, raw, dropped, x.selected);
    }
  }

  lemma AddedParts(sel: Selection, v: View, raw: seq<byte>, dropped: seq<byte>, x: View)
    requires raw != [] && AddsText(sel, v, raw, dropped, x) && WholeEnd(raw, sel.maxBytes) != []
    ensures Fits(sel, x.selected)
    ensures Dropped(sel, Older(sel, v.selected, raw), WholeEnd(raw, sel.maxBytes), dropped, x.selected)
  {
  }

  lemma LinesWereFew(sel: Selection, tail: seq<byte>)
    requires tail != [] && LineCount(tail) < sel.maxLines
    ensures 1 < sel.maxLines
  {
    SomeLine(tail);
  }

  // ---- whole runs ----

  ghost function NextGapOf(sel: Selection, passed: seq<byte>, g: Gap, raw: seq<byte>): Gap
  {
    if sel.LineMatches(Content(raw)) then NextGap(sel, passed, g, raw) else g
  }

  /** The gap, if any, after the complete lines of `s`. */
  ghost function GapThrough(sel: Selection, s: seq<byte>): Gap
  {
    if s == [] then Contiguous
    else
      var before := s[..|s| - 1];
      if s[|s| - 1] == NEWLINE
      then NextGapOf(sel, Passed(sel, before), GapThrough(sel, before), Pending(before) + [NEWLINE])
      else GapThrough(sel, before)
  }

  /** The gap, if any, once `s` has ended. */
  ghost function GapInAll(sel: Selection, s: seq<byte>): Gap
  {
    if Pending(s) == [] then GapThrough(sel, s)
    else NextGapOf(sel, Passed(sel, s), GapThrough(sel, s), Pending(s))
  }

  lemma FinishKeepsGap(sel: Selection, v: View, passed: seq<byte>, g: Gap, raw: seq<byte>, final: bool)
    requires Budgets(sel) && sel.initialLineSkipBytes == 0 && RunsText(sel, v, passed)
    requires TextLine(v.selected, raw, final) && Stands(sel, v.selected, passed, g)
    ensures var r, line := FinishLine(sel, v, raw, final), PassedLine(sel, v.lines, raw);
            Stands(sel, r.selected, passed + line, NextGapOf(sel, passed, g, raw))
  {
    hide *;
    FinishLineText(sel, v, raw, final);
    SameSelected(FinishLine(sel, v, raw, final), v);
    if sel.LineMatches(Content(raw)) {
      var w := v.(completed := v.completed + |raw|, lines := v.lines + 1, matched := v.matched + 1);
      LikeText(sel, v, w, passed, raw, final);
      AddKeepsGap(sel, w, passed, g, raw, final);
      SameSelected(FinishLine(sel, v, raw, final), Add(sel, w, Last(raw, sel.maxBytes), |raw|, final).0);
      NextIs(sel, passed, g, raw);
    } else {
      assert passed + [] == passed;
      NextIs(sel, passed, g, raw);
    }
  }

  lemma SameSelected(a: View, b: View)
    ensures SameText(a, b) ==> a.selected == b.selected
  {
  }

  lemma NextIs(sel: Selection, passed: seq<byte>, g: Gap, raw: seq<byte>)
    ensures NextGapOf(sel, passed, g, raw) ==
            if sel.LineMatches(Content(raw)) then NextGap(sel, passed, g, raw) else g
  {
  }

  lemma GapByte(sel: Selection, s: seq<byte>, b: byte)
    ensures GapThrough(sel, s + [b]) ==
            if b == NEWLINE then NextGapOf(sel, Passed(sel, s), GapThrough(sel, s), Pending(s) + [NEWLINE])
            else GapThrough(sel, s)
  {
    assert (s + [b])[..|s|] == s;
  }

  lemma NothingStands(sel: Selection)
    requires Budgets(sel)
    ensures Stands(sel, Through(sel, []).selected, Passed(sel, []), GapThrough(sel, []))
  {
  }

  lemma {:induction false} ThroughStands(sel: Selection, s: seq<byte>, more: seq<byte>)
    requires Budgets(sel) && sel.initialLineSkipBytes == 0 && Textual(s + more)
    ensures Stands(sel, Through(sel, s).selected, Passed(sel, s), GapThrough(sel, s))
  {
    hide *;
    if s == [] {
      NothingStands(sel);
    } else {
      var before, b := s[..|s| - 1], s[|s| - 1];
      assert before + [b] == s && before + ([b] + more) == s + more;
      ThroughStands(sel, before, [b] + more);
      ThroughText(sel, before, [b] + more);
      ThroughTextByte(sel, before, b, more);
      GapByte(sel, before, b);
      if b == NEWLINE {
        FinishKeepsGap(sel, Through(sel, before), Passed(sel, before), GapThrough(sel, before),
                       Pending(before) + [NEWLINE], false);
      }
    }
  }

  lemma EndedStands(sel: Selection, s: seq<byte>)
    requires Budgets(sel) && sel.initialLineSkipBytes == 0 && Textual(s)
    ensures Stands(sel, Ended(sel, s, true).selected, PassedInAll(sel, s), GapInAll(sel, s))
  {
    hide Shaped, Textual, Through, Passed, FinishLine, Pending, Newlines, Budgets, TextLine, PassedLine, RunsText;
    hide Stands, NextGapOf, GapThrough;
    assert s + [] == s;
    ThroughText(sel, s, []);
    ThroughStands(sel, s, []);
    if Pending(s) != [] {
      NextTextLine(sel, s, [], Pending(s), true);
      FinishKeepsGap(sel, Through(sel, s), Passed(sel, s), GapThrough(sel, s), Pending(s), true);
    }
  }

  /** The final selection of a text tail is the longest end of the passing lines within both budgets that starts on a
      code point if and only if no gap is left at its end; and it is any end of them only then. */
  lemma LongestExactly(sel: Selection, s: seq<byte>)
    requires Budgets(sel) && sel.initialLineSkipBytes == 0 && Textual(s)
    ensures var x, passed := Ended(sel, s, true).selected, PassedInAll(sel, s);
            && (LongestText(sel, x, passed) <==> GapInAll(sel, s).Contiguous?)
            && (IsSuffix(x, passed) <==> GapInAll(sel, s).Contiguous?)
  {
    hide Shaped, Textual, Budgets, Ended, PassedInAll, GapInAll, Fits, Missing, LineCount;
    var x, passed := Ended(sel, s, true).selected, PassedInAll(sel, s);
    TailTextIsLongest(sel, s);
    EndedStands(sel, s);
    var g := GapInAll(sel, s);
    if g.Behind? { BrokenIsNoSuffix(sel, x, passed, g.bytes, g.lines); }
  }
}
