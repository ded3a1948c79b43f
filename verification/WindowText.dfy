/**
 * What a tail window keeps of text in whole code points: the longest suffix within both budgets that starts on a
 * code point, and exactly which lines put a gap into it.
 */
module WindowText {
  import opened Bytes
  import opened Utf8
  import opened ByteBuffers
  import opened WindowSpec
  import opened WindowEnds

  // ---- one line more ----

  predicate IsSuffix(x: seq<byte>, whole: seq<byte>)
  {
    |x| <= |whole| && x == whole[|whole| - |x|..]
  }

  /** The line fits, or the bytes of it that fit start on a code point. */
  predicate CleanEnd(sel: Selection, raw: seq<byte>)
  {
    |raw| <= sel.maxBytes || LeadingContinuations(Last(raw, sel.maxBytes)) == 0
  }

  ghost predicate Budgets(sel: Selection)
  {
    4 <= sel.maxBytes && 0 < sel.maxLines && sel.mode == Tail && !sel.preserveRawPageBytes
  }

  /** What every text tail keeps, gap or no gap. */
  ghost predicate HoldsText(sel: Selection, v: View)
  {
    && !v.full && Fits(sel, v.selected) && v.keptLines == LineCount(v.selected) && Shaped(v.selected)
  }

  /** One line of text; only the very first one may be entered inside a code point. */
  ghost predicate TextLine(held: seq<byte>, raw: seq<byte>, final: bool)
  {
    && OneLine(raw) && (raw[|raw| - 1] == NEWLINE || final)
    && if held == [] then Textual(raw) else Shaped(raw)
  }

  /** The last `n` bytes without what is left of a code point at their start. */
  function WholeEnd(s: seq<byte>, n: nat): seq<byte>
  {
    Last(s, n)[LeadingContinuations(Last(s, n))..]
  }

  lemma LastIsTextual(s: seq<byte>, n: nat)
    requires Textual(s)
    ensures Textual(Last(s, n))
  {
    TextualSuffix(s, |s| - Min(|s|, n));
  }

  lemma AddTailText(sel: Selection, held: seq<byte>, kept: nat, cut: bool, raw: seq<byte>, final: bool)
    requires Budgets(sel) && TextLine(held, raw, final)
    ensures var a := AddTail(sel, held, kept, cut, Last(raw, sel.maxBytes), |raw|, final);
            var chosen := WholeEnd(raw, sel.maxBytes);
            && Shaped(chosen) && !a.full
            && (chosen == [] ==> a.selected == held && a.keptLines == kept)
            && (chosen != [] ==>
                  var latest := KeepLatest(sel, held, kept, chosen);
                  a.selected == latest.0 && a.keptLines == latest.1)
  {
    hide KeepLatest, SafeLength, Shaped, Newlines, LeadingContinuations, Last;
    var line := Last(raw, sel.maxBytes);
    if held != [] { WholeIsTextual(raw); }
    LastIsTextual(raw, sel.maxBytes);
    LastByte(raw, sel.maxBytes);
    if !final { NewlineEndsSafely(line); }
    assert line[..|line|] == line;
  }

  lemma LastByte(s: seq<byte>, n: nat)
    requires s != [] && 0 < n
    ensures Last(s, n) != [] && Last(s, n)[|Last(s, n)| - 1] == s[|s| - 1] && |Last(s, n)| <= |s|
  {
  }

  lemma Continuations(s: seq<byte>, cut: nat, k: nat)
    requires cut <= |s| && k == LeadingContinuations(s[cut..])
    ensures cut + k <= |s| && s[cut..][k..] == s[cut + k..]
    ensures forall j :: cut <= j < cut + k ==> IsContinuation(s[j])
    ensures WholeLines(s) && cut < |s| ==> cut + k < |s|
  {
    hide LeadingContinuations;
    var line := s[cut..];
    forall j | cut <= j < cut + k ensures IsContinuation(s[j]) { assert s[j] == line[j - cut]; }
  }

  lemma CutEnd(s: seq<byte>, cut: nat) returns (k: nat)
    requires Textual(s) && cut <= |s|
    ensures k == LeadingContinuations(s[cut..]) <= 3 && cut + k <= |s|
    ensures s[cut..][k..] == s[cut + k..] && Shaped(s[cut + k..])
    ensures forall j :: cut <= j < cut + k ==> IsContinuation(s[j])
    ensures WholeLines(s) && cut < |s| ==> cut + k < |s|
  {
    hide *;
    TextualSuffix(s, cut);
    k := LeadingContinuations(s[cut..]);
    Continuations(s, cut, k);
    TextualParts(s[cut..]);
  }

  lemma TextualParts(s: seq<byte>)
    requires Textual(s)
    ensures LeadingContinuations(s) <= 3 && Shaped(s[LeadingContinuations(s)..])
  {
  }

  /** The whole end is the longest end of at most `n` bytes that starts on a code point. */
  lemma WholeEndOf(s: seq<byte>, n: nat)
    requires Textual(s)
    ensures var x := WholeEnd(s, n); IsSuffix(x, s) && Shaped(x) && Min(|s|, n) - 3 <= |x| <= n
    ensures |s| <= n && LeadingContinuations(s) == 0 ==> WholeEnd(s, n) == s
    ensures var x := WholeEnd(s, n); forall j :: 0 <= j < |s| - |x| && !IsContinuation(s[j]) ==> n < |s| - j
    ensures WholeLines(s) ==> WholeLines(WholeEnd(s, n)) && (s != [] && 0 < n ==> WholeEnd(s, n) != [])
  {
    hide Shaped, Textual, LeadingContinuations;
    var cut := |s| - Min(|s|, n);
    assert Last(s, n) == s[cut..];
    var k := CutEnd(s, cut);
    assert WholeEnd(s, n) == s[cut + k..];
    if cut == 0 { assert s[0..] == s; }
  }

  lemma LastSplits(held: seq<byte>, chosen: seq<byte>, n: nat) returns (cut: nat)
    requires |chosen| <= n
    ensures cut <= |held| && Last(held + chosen, n) == held[cut..] + chosen
    ensures First(held, cut) == held[..cut]
    ensures WholeEnd(held, n - |chosen|) == held[cut..][LeadingContinuations(held[cut..])..]
  {
    cut := |held| - Min(|held|, n - |chosen|);
  }

  /** The bytes kept of an older text and one line: a whole-lines end of the older text, then the line. */
  lemma KeepLatestText(sel: Selection, held: seq<byte>, kept: nat, chosen: seq<byte>)
    requires Budgets(sel) && Shaped(held) && WholeLines(held) && kept == LineCount(held)
    requires Shaped(chosen) && OneLine(chosen) && |chosen| <= sel.maxBytes
    ensures var all := WholeEnd(held, sel.maxBytes - |chosen|) + chosen;
            var (selected, count, lost) := KeepLatest(sel, held, kept, chosen);
            Shaped(all) && (selected, count) == DropLines(all, LineCount(all), sel.maxLines)
  {
    hide *;
    var cut := LastSplits(held, chosen, sel.maxBytes);
    WholeIsTextual(held);
    var trim := CutEnd(held, cut);
    TrimsText(held, cut, trim, chosen);
    ShapedConcat(held[cut + trim..], chosen);
    PieceCounts(held, cut, trim, chosen);
    KeepLatestIs(sel, held, kept, chosen, cut, trim);
  }

  lemma KeepLatestIs(sel: Selection, held: seq<byte>, kept: nat, chosen: seq<byte>, cut: nat, trim: nat)
    requires Budgets(sel) && cut <= |held| && First(held, cut) == held[..cut]
    requires Last(held + chosen, sel.maxBytes) == held[cut..] + chosen
    requires trim == LeadingContinuations(held[cut..] + chosen) <= 3
    ensures var (selected, count, lost) := KeepLatest(sel, held, kept, chosen);
            (selected, count) == DropLines((held[cut..] + chosen)[trim..],
                                           Max(0, kept - Newlines(held[..cut])) + 1, sel.maxLines)
  {
    hide DropLines, Newlines, LeadingContinuations, Last, First;
  }

  lemma TrimsText(held: seq<byte>, cut: nat, trim: nat, chosen: seq<byte>)
    requires WholeLines(held) && cut <= |held| && Shaped(chosen) && trim == LeadingContinuations(held[cut..])
    ensures LeadingContinuations(held[cut..] + chosen) == trim && cut + trim <= |held|
    ensures (held[cut..] + chosen)[trim..] == held[cut + trim..] + chosen && held[cut..][trim..] == held[cut + trim..]
    ensures forall j :: cut <= j < cut + trim ==> IsContinuation(held[j])
  {
    hide Shaped;
    WholeIsTextual(chosen);
    TrimsAlike(held[cut..], chosen);
    forall j | cut <= j < cut + trim ensures IsContinuation(held[j]) {
      assert held[j] == held[cut..][j - cut];
    }
  }

  lemma TrimsAlike(tail: seq<byte>, chosen: seq<byte>)
    requires WholeLines(tail) && (chosen == [] || !IsContinuation(chosen[0]))
    ensures LeadingContinuations(tail + chosen) == LeadingContinuations(tail)
    ensures tail != [] ==> LeadingContinuations(tail) < |tail|
  {
    var n := LeadingContinuations(tail);
    assert tail != [] ==> !IsContinuation(tail[|tail| - 1]);
    assert forall i :: 0 <= i < n ==> (tail + chosen)[i] == tail[i];
    StraysCounted(tail + chosen, n);
  }

  /** Dropped bytes leave with their newlines, and continuation bytes hold none. */
  lemma PieceCounts(held: seq<byte>, dropped: nat, trim: nat, chosen: seq<byte>)
    requires WholeLines(held) && dropped + trim <= |held| && OneLine(chosen)
    requires forall i :: dropped <= i < dropped + trim ==> IsContinuation(held[i])
    ensures LineCount(held[dropped + trim..] + chosen) == Max(0, LineCount(held) - Newlines(held[..dropped])) + 1
  {
    hide Newlines, LineCount;
    var middle, rest := held[dropped..dropped + trim], held[dropped + trim..];
    assert held == held[..dropped] + (middle + rest);
    NewlinesConcat(held[..dropped], middle + rest);
    NewlinesConcat(middle, rest);
    NoNewlines(middle);
    WholeLinesCount(held);
    LineCountConcat(rest, chosen);
    OneLineCounts(chosen);
  }

  /** Whole lines leave the front of older text and one line: never the line itself, all else for a single line,
      and not all else for more. */
  lemma DropsOlder(p: seq<byte>, chosen: seq<byte>, maxLines: nat) returns (gone: seq<byte>)
    requires OneLine(chosen) && WholeLines(p) && Shaped(p + chosen) && 0 < maxLines
    ensures var x := DropLines(p + chosen, LineCount(p + chosen), maxLines).0;
            && DropLines(p + chosen, LineCount(p + chosen), maxLines).1 == LineCount(x) <= maxLines
            && p + chosen == gone + x && |gone| <= |p| && Shaped(x)
            && (gone != [] ==> maxLines < LineCount([gone[|gone| - 1]] + x))
            && (maxLines == 1 ==> gone == p) && (1 < maxLines && p != [] ==> |gone| < |p|)
  {
    hide DropLines, Shaped, Newlines, LineCount;
    gone := DropLinesTight(p + chosen, maxLines);
    var x := DropLines(p + chosen, LineCount(p + chosen), maxLines).0;
    if gone == [] {
      assert x == p + chosen;
      if maxLines == 1 && p != [] { TwoLines(p, chosen); }
    } else {
      GoneIsLines(gone, x, maxLines);
      forall j | |p| <= j < |p| + |chosen| - 1 ensures (p + chosen)[j] != NEWLINE {
        assert (p + chosen)[j] == chosen[..|chosen| - 1][j - |p|];
      }
      assert (p + chosen)[|gone| - 1] == NEWLINE;
      CutBehindNewline(p + chosen, |gone| - 1);
      assert (p + chosen)[|gone|..] == x;
      if |gone| == |p| {
        assert x == chosen;
        OneMoreLine(chosen);
        OneLineCounts(chosen);
      } else if maxLines == 1 {
        var older := p[|gone|..];
        assert x == older + chosen && older[|older| - 1] == p[|p| - 1];
        TwoLines(older, chosen);
      }
    }
  }

  lemma TwoLines(p: seq<byte>, chosen: seq<byte>)
    requires p != [] && WholeLines(p) && OneLine(chosen)
    ensures 2 <= LineCount(p + chosen)
  {
    hide Newlines, LineCount;
    NewlinesOfNothing();
    assert p == p[..|p| - 1] + [NEWLINE];
    NewlinesConcat(p[..|p| - 1], [NEWLINE]);
    LineCountConcat(p, chosen);
    OneLineCounts(chosen);
  }

  lemma GoneIsLines(gone: seq<byte>, x: seq<byte>, maxLines: nat)
    requires gone != [] && 0 < maxLines && LineCount(x) <= maxLines < LineCount([gone[|gone| - 1]] + x)
    ensures gone[|gone| - 1] == NEWLINE && x != []
  {
    hide Newlines, LineCount;
    var b := gone[|gone| - 1];
    NoNewlines([b]);
    OneLineCounts([b]);
    LineCountConcat([b], x);
    assert x == [] ==> [b] + x == [b];
  }

  /** Nothing older can stand before the end of the new line, unless the line itself continues it. */
  predicate GapFree(sel: Selection, held: seq<byte>, raw: seq<byte>)
  {
    sel.maxLines == 1 || held == [] || CleanEnd(sel, raw)
  }

  /** The older text that stays beside the end of the new line. */
  function Older(sel: Selection, held: seq<byte>, raw: seq<byte>): seq<byte>
  {
    WholeEnd(held, sel.maxBytes - |WholeEnd(raw, sel.maxBytes)|)
  }

  /** What one more line leaves: the older text loses whole lines from its front. */
  ghost predicate Dropped(sel: Selection, older: seq<byte>, chosen: seq<byte>, gone: seq<byte>, x: seq<byte>)
  {
    && older + chosen == gone + x && |gone| <= |older|
    && (gone != [] ==> sel.maxLines < LineCount([gone[|gone| - 1]] + x))
    && (sel.maxLines == 1 ==> gone == older) && (1 < sel.maxLines && older != [] ==> |gone| < |older|)
  }

  ghost predicate AddsText(sel: Selection, v: View, raw: seq<byte>, gone: seq<byte>, x: View)
    requires raw != []
  {
    var chosen := WholeEnd(raw, sel.maxBytes);
    && HoldsText(sel, x) && (raw[|raw| - 1] == NEWLINE ==> WholeLines(x.selected) && x.selected != [])
    && (chosen == [] ==> x.selected == v.selected == [])
    && (chosen != [] ==> Dropped(sel, Older(sel, v.selected, raw), chosen, gone, x.selected))
  }

  lemma AddText(sel: Selection, v: View, raw: seq<byte>, final: bool) returns (gone: seq<byte>)
    requires Budgets(sel) && HoldsText(sel, v) && WholeLines(v.selected) && TextLine(v.selected, raw, final)
    ensures AddsText(sel, v, raw, gone, Add(sel, v, Last(raw, sel.maxBytes), |raw|, final).0)
  {
    hide *;
    gone := [];
    ChosenIsLine(sel, v.selected, raw, final);
    var chosen := WholeEnd(raw, sel.maxBytes);
    if chosen != [] { gone := LatestText(sel, v, chosen); }
    AddTextIs(sel, v, raw, final, gone);
  }

  lemma AddTextIs(sel: Selection, v: View, raw: seq<byte>, final: bool, gone: seq<byte>)
    requires Budgets(sel) && HoldsText(sel, v) && WholeLines(v.selected) && TextLine(v.selected, raw, final)
    requires var chosen := WholeEnd(raw, sel.maxBytes);
             && |chosen| <= sel.maxBytes && (chosen == [] ==> v.selected == [] && raw[|raw| - 1] != NEWLINE)
             && (chosen != [] ==>
                   && chosen[|chosen| - 1] == raw[|raw| - 1]
                   && LeavesText(sel, v.selected, chosen, gone, KeepLatest(sel, v.selected, v.keptLines, chosen)))
    ensures AddsText(sel, v, raw, gone, Add(sel, v, Last(raw, sel.maxBytes), |raw|, final).0)
  {
    hide Shaped, AddTail, DropLines, KeepLatest, Newlines, LineCount, WholeEnd, Textual, Dropped;
    AddTailText(sel, v.selected, v.keptLines, v.truncated, raw, final);
  }

  /** What the latest bytes of an older text and one line are. */
  ghost predicate LeavesText(
    sel: Selection, held: seq<byte>, chosen: seq<byte>, gone: seq<byte>, latest: (seq<byte>, nat, bool))
    requires |chosen| <= sel.maxBytes
  {
    && Fits(sel, latest.0) && latest.1 == LineCount(latest.0) && Shaped(latest.0)
    && Dropped(sel, WholeEnd(held, sel.maxBytes - |chosen|), chosen, gone, latest.0)
    && latest.0 != [] && chosen != [] && latest.0[|latest.0| - 1] == chosen[|chosen| - 1]
  }

  lemma LatestText(sel: Selection, v: View, chosen: seq<byte>) returns (gone: seq<byte>)
    requires Budgets(sel) && HoldsText(sel, v) && WholeLines(v.selected)
    requires Shaped(chosen) && OneLine(chosen) && |chosen| <= sel.maxBytes
    ensures LeavesText(sel, v.selected, chosen, gone, KeepLatest(sel, v.selected, v.keptLines, chosen))
  {
    hide Shaped, KeepLatest, DropLines, Newlines, LineCount, WholeEnd, Textual;
    var held := v.selected;
    KeepLatestText(sel, held, v.keptLines, chosen);
    WholeIsTextual(held);
    WholeEndOf(held, sel.maxBytes - |chosen|);
    var older := WholeEnd(held, sel.maxBytes - |chosen|);
    gone := DropsOlder(older, chosen, sel.maxLines);
    EndStays(older, chosen, gone, DropLines(older + chosen, LineCount(older + chosen), sel.maxLines).0);
  }

  lemma EndStays(older: seq<byte>, chosen: seq<byte>, gone: seq<byte>, x: seq<byte>)
    requires older + chosen == gone + x && |gone| <= |older| && chosen != []
    ensures x == older[|gone|..] + chosen && x[|x| - 1] == chosen[|chosen| - 1]
  {
    assert x == (older + chosen)[|gone|..];
  }

  lemma ChosenIsLine(sel: Selection, held: seq<byte>, raw: seq<byte>, final: bool)
    requires Budgets(sel) && TextLine(held, raw, final)
    ensures Textual(raw)
    ensures var chosen := WholeEnd(raw, sel.maxBytes);
            && Shaped(chosen) && IsSuffix(chosen, raw) && |chosen| <= sel.maxBytes
            && (chosen == [] ==> held == [] && raw[|raw| - 1] != NEWLINE)
            && (chosen != [] ==> OneLine(chosen) && chosen[|chosen| - 1] == raw[|raw| - 1])
  {
    hide Shaped, LeadingContinuations, WholeEnd;
    if held != [] { WholeIsTextual(raw); }
    WholeEndOf(raw, sel.maxBytes);
    var chosen := WholeEnd(raw, sel.maxBytes);
    if chosen != [] {
      assert chosen[|chosen| - 1] == raw[|raw| - |chosen|..][|chosen| - 1];
      OneLineSuffix(raw, |raw| - |chosen|);
    }
  }

  /** The line adds no gap exactly if nothing older could stand before its end, or its end begins where the window
      does. */
  lemma AddTextGaps(sel: Selection, v: View, raw: seq<byte>, final: bool)
    requires Budgets(sel) && HoldsText(sel, v) && WholeLines(v.selected) && TextLine(v.selected, raw, final)
    ensures var x := Add(sel, v, Last(raw, sel.maxBytes), |raw|, final).0;
            IsSuffix(x.selected, v.selected + raw) <==> GapFree(sel, v.selected, raw)
  {
    hide Shaped, Add, LineCount, WholeEnd, Textual;
    var held, chosen, older := v.selected, WholeEnd(raw, sel.maxBytes), Older(sel, v.selected, raw);
    var gone := AddText(sel, v, raw, final);
    var x := Add(sel, v, Last(raw, sel.maxBytes), |raw|, final).0.selected;
    ChosenIsLine(sel, held, raw, final);
    ChosenLength(sel, held, raw, final);
    if chosen != [] {
      EndStays(older, chosen, gone, x);
      if GapFree(sel, held, raw) {
        NoGap(sel, held, raw, final, gone, x);
      } else {
        NewlineInside(held, raw, older[|gone|..], chosen);
      }
    }
  }

  lemma ChosenLength(sel: Selection, held: seq<byte>, raw: seq<byte>, final: bool)
    requires Budgets(sel) && TextLine(held, raw, final) && Shaped(held) && WholeLines(held)
    ensures var chosen, older := WholeEnd(raw, sel.maxBytes), Older(sel, held, raw);
            && (held != [] && |raw| <= sel.maxBytes ==> chosen == raw)
            && (sel.maxBytes < |raw| ==> (|chosen| == sel.maxBytes <==> CleanEnd(sel, raw)))
            && IsSuffix(older, held) && WholeLines(older)
            && (held != [] && |chosen| < sel.maxBytes ==> older != [])
            && |older| + |chosen| <= sel.maxBytes
  {
    hide Shaped;
    if held != [] { WholeIsTextual(raw); }
    WholeEndOf(raw, sel.maxBytes);
    WholeIsTextual(held);
    WholeEndOf(held, sel.maxBytes - |WholeEnd(raw, sel.maxBytes)|);
  }

  lemma NoGap(sel: Selection, held: seq<byte>, raw: seq<byte>, final: bool, gone: seq<byte>, x: seq<byte>)
    requires Budgets(sel) && TextLine(held, raw, final) && Shaped(held) && WholeLines(held)
    requires GapFree(sel, held, raw)
    requires var chosen, older := WholeEnd(raw, sel.maxBytes), Older(sel, held, raw);
             chosen != [] && Dropped(sel, older, chosen, gone, x) && IsSuffix(chosen, raw)
    ensures IsSuffix(x, held + raw)
    ensures held == [] || sel.maxLines == 1 || sel.maxBytes < |raw| ==> x == WholeEnd(raw, sel.maxBytes)
  {
    hide Shaped, WholeEnd, Textual, LineCount, OneLine, WholeLines, Older, IsSuffix;
    var chosen, older := WholeEnd(raw, sel.maxBytes), Older(sel, held, raw);
    ChosenLength(sel, held, raw, final);
    EndStays(older, chosen, gone, x);
    if held == [] { NothingOlder(older); }
    if held == [] || sel.maxLines == 1 || sel.maxBytes < |raw| {
      assert |gone| == |older|;
      assert older[|gone|..] == [];
      assert x == chosen;
      SuffixBehind(chosen, held, raw);
    } else {
      SuffixOfSuffix(older, |gone|, held, raw);
    }
  }

  lemma NothingOlder(older: seq<byte>)
    requires IsSuffix(older, [])
    ensures older == []
  {
  }

  lemma SuffixBehind(x: seq<byte>, held: seq<byte>, raw: seq<byte>)
    requires IsSuffix(x, raw)
    ensures IsSuffix(x, held + raw)
  {
    assert (held + raw)[|held| + |raw| - |x|..] == raw[|raw| - |x|..];
  }

  lemma SuffixOfSuffix(older: seq<byte>, n: nat, held: seq<byte>, raw: seq<byte>)
    requires IsSuffix(older, held) && n <= |older|
    ensures IsSuffix(older[n..] + raw, held + raw)
  {
    assert older[n..] == held[|held| - |older| + n..];
    assert (held + raw)[|held| - |older| + n..] == held[|held| - |older| + n..] + raw;
  }

  /** A newline where the line goes on: what stands there is an older line's. */
  lemma NewlineInside(held: seq<byte>, raw: seq<byte>, rest: seq<byte>, chosen: seq<byte>)
    requires OneLine(raw) && IsSuffix(chosen, raw) && 0 < |chosen| < |raw| && rest != [] && WholeLines(rest)
    ensures !IsSuffix(rest + chosen, held + raw)
  {
    var x, whole := rest + chosen, held + raw;
    var i := |raw| - |chosen| - 1;
    assert raw[i] == raw[..|raw| - 1][i];
    assert x[|rest| - 1] == NEWLINE && whole[|held| + i] == raw[i];
    assert |x| <= |whole| ==> whole[|whole| - |x|..][|rest| - 1] == whole[|held| + i];
  }

  // ---- the longest text that fits ----

  /** No longer end of the text in whole code points fits. */
  ghost predicate Missing(sel: Selection, gone: seq<byte>, x: seq<byte>)
  {
    forall g :: 0 <= g < |gone| && !IsContinuation(gone[g]) ==> !Fits(sel, gone[g..] + x)
  }

  /** Only the end of the line is kept: nothing older is there, nothing older may stay, or it fills the window. */
  lemma OnlyTheLine(sel: Selection, gone: seq<byte>, held: seq<byte>, raw: seq<byte>, final: bool, lost: seq<byte>)
    requires Budgets(sel) && TextLine(held, raw, final) && Shaped(held) && WholeLines(held)
    requires held == [] ==> gone == []
    requires held == [] || sel.maxLines == 1 || sel.maxBytes < |raw|
    requires lost + WholeEnd(raw, sel.maxBytes) == gone + held + raw
    ensures Missing(sel, lost, WholeEnd(raw, sel.maxBytes))
  {
    hide Shaped, WholeEnd, Textual, Fits, LeadingContinuations;
    var chosen, whole := WholeEnd(raw, sel.maxBytes), gone + held + raw;
    ChosenIsLine(sel, held, raw, final);
    WholeEndOf(raw, sel.maxBytes);
    forall g | 0 <= g < |lost| && !IsContinuation(lost[g]) ensures !Fits(sel, lost[g..] + chosen) {
      assert lost[g..] + chosen == whole[g..] && lost[g] == whole[g];
      var older := |gone| + |held|;
      if older <= g {
        assert raw[g - older] == whole[g];
        TooLong(sel, whole[g..]);
      } else {
        assert whole[g..] == (gone + held)[g..] + raw;
        OlderInTheWay(sel, gone + held, raw, g);
      }
    }
  }

  lemma TooLong(sel: Selection, s: seq<byte>)
    requires sel.maxBytes < |s|
    ensures !Fits(sel, s)
  {
  }

  lemma OlderInTheWay(sel: Selection, before: seq<byte>, raw: seq<byte>, g: nat)
    requires WholeLines(before) && g < |before| && OneLine(raw) && (sel.maxLines == 1 || sel.maxBytes < |raw|)
    ensures !Fits(sel, before[g..] + raw)
  {
    hide LineCount;
    assert before[g..][|before| - g - 1] == before[|before| - 1];
    TwoLines(before[g..], raw);
  }

  /** The line stays whole beside the newest older lines. */
  lemma BesideOlder(
    sel: Selection, gone: seq<byte>, held: seq<byte>, raw: seq<byte>, dropped: seq<byte>, x: seq<byte>,
    lost: seq<byte>)
    requires Shaped(held) && Missing(sel, gone, held) && 0 < |raw| <= sel.maxBytes
    requires Dropped(sel, WholeEnd(held, sel.maxBytes - |raw|), raw, dropped, x) && lost + x == gone + held + raw
    ensures Missing(sel, lost, x)
  {
    forall g | 0 <= g < |lost| && !IsContinuation(lost[g]) ensures !Fits(sel, lost[g..] + x) {
      hide *;
      BesideOlderFrom(sel, gone, held, raw, dropped, x, lost, g);
    }
  }

  lemma BesideOlderFrom(
    sel: Selection, gone: seq<byte>, held: seq<byte>, raw: seq<byte>, dropped: seq<byte>, x: seq<byte>,
    lost: seq<byte>, g: nat)
    requires Shaped(held) && Missing(sel, gone, held) && 0 < |raw| <= sel.maxBytes
    requires Dropped(sel, WholeEnd(held, sel.maxBytes - |raw|), raw, dropped, x) && lost + x == gone + held + raw
    requires g < |lost| && !IsContinuation(lost[g])
    ensures !Fits(sel, lost[g..] + x)
  {
    hide *;
    var older, whole := WholeEnd(held, sel.maxBytes - |raw|), gone + held + raw;
    WholeIsTextual(held);
    WholeEndOf(held, sel.maxBytes - |raw|);
    DroppedOlder(sel, older, raw, dropped, x);
    FromHere(lost, x, whole, g);
    if g < |gone| {
      assert whole[g] == gone[g];
      BesideMissing(sel, gone, held, raw, g);
    } else {
      var j := g - |gone|;
      BehindGone(gone, held, raw, g);
      assert |lost| <= |gone| + |held| - |older| + |dropped|;
      BesideOlderAt(sel, held, raw, older, dropped, x, j);
    }
  }

  lemma DroppedOlder(sel: Selection, older: seq<byte>, raw: seq<byte>, dropped: seq<byte>, x: seq<byte>)
    requires Dropped(sel, older, raw, dropped, x) && raw != []
    ensures |dropped| <= |older| && x == older[|dropped|..] + raw
  {
    hide LineCount;
    EndStays(older, raw, dropped, x);
  }

  lemma FromHere(lost: seq<byte>, x: seq<byte>, whole: seq<byte>, g: nat)
    requires lost + x == whole && g < |lost|
    ensures lost[g..] + x == whole[g..] && lost[g] == whole[g]
  {
  }

  lemma BehindGone(gone: seq<byte>, held: seq<byte>, raw: seq<byte>, g: nat)
    requires |gone| <= g < |gone| + |held| + |raw|
    ensures (gone + held + raw)[g..] == (held + raw)[g - |gone|..]
    ensures g < |gone| + |held| ==> (gone + held + raw)[g] == held[g - |gone|]
  {
  }

  lemma BesideMissing(sel: Selection, gone: seq<byte>, held: seq<byte>, raw: seq<byte>, g: nat)
    requires Missing(sel, gone, held) && g < |gone| && !IsContinuation(gone[g])
    ensures !Fits(sel, (gone + held + raw)[g..])
  {
    hide Fits;
    assert (gone + held + raw)[g..] == (gone[g..] + held) + raw;
    LargerUnfit(sel, [], gone[g..] + held, raw);
    assert [] + (gone[g..] + held) == gone[g..] + held;
  }

  lemma BesideOlderAt(
    sel: Selection, held: seq<byte>, raw: seq<byte>, older: seq<byte>, dropped: seq<byte>, x: seq<byte>, j: nat)
    requires IsSuffix(older, held) && Dropped(sel, older, raw, dropped, x) && x == older[|dropped|..] + raw
    requires j < |held| - |older| + |dropped|
    requires j < |held| - |older| ==> sel.maxBytes - |raw| < |held| - j
    ensures !Fits(sel, (held + raw)[j..])
  {
    hide LineCount;
    if |held| - |older| <= j {
      var i := j - (|held| - |older|);
      var n := |dropped| - 1;
      assert dropped == (older + raw)[..|dropped|] == older[..|dropped|];
      assert (held + raw)[j..] == held[j..] + raw && held[j..] == older[i..];
      assert older[i..] == dropped[i..] + older[|dropped|..] && dropped[i..] == dropped[i..n] + [dropped[n]];
      assert (held + raw)[j..] == dropped[i..n] + ([dropped[n]] + x);
      LargerUnfit(sel, dropped[i..n], [dropped[n]] + x, []);
    }
  }

  lemma LostBefore(x: seq<byte>, gone: seq<byte>, whole: seq<byte>) returns (lost: seq<byte>)
    requires IsSuffix(x, whole)
    ensures lost + x == gone + whole
  {
    lost := gone + whole[..|whole| - |x|];
  }

  /** Without a gap the selection stays the longest end of the text in whole code points that fits. */
  lemma AddTextLongest(sel: Selection, v: View, gone: seq<byte>, raw: seq<byte>, final: bool) returns (lost: seq<byte>)
    requires Budgets(sel) && HoldsText(sel, v) && WholeLines(v.selected) && TextLine(v.selected, raw, final)
    requires GapFree(sel, v.selected, raw) && Missing(sel, gone, v.selected) && (v.selected == [] ==> gone == [])
    ensures var x := Add(sel, v, Last(raw, sel.maxBytes), |raw|, final).0;
            lost + x.selected == gone + v.selected + raw && Missing(sel, lost, x.selected)
  {
    hide Shaped, Add, LineCount, WholeEnd, Textual, Missing, IsSuffix, Fits, LeadingContinuations, CleanEnd;
    hide OneLine, WholeLines, Dropped;
    var held, chosen := v.selected, WholeEnd(raw, sel.maxBytes);
    var dropped := AddText(sel, v, raw, final);
    var x := Add(sel, v, Last(raw, sel.maxBytes), |raw|, final).0.selected;
    AddTextGaps(sel, v, raw, final);
    lost := LostBefore(x, gone, held + raw);
    assert gone + (held + raw) == gone + held + raw;
    ChosenIsLine(sel, held, raw, final);
    ChosenLength(sel, held, raw, final);
    if chosen == [] {
      OnlyTheLine(sel, gone, held, raw, final, lost);
    } else {
      NoGap(sel, held, raw, final, dropped, x);
      if held == [] || sel.maxLines == 1 || sel.maxBytes < |raw| {
        OnlyTheLine(sel, gone, held, raw, final, lost);
      } else {
        BesideOlder(sel, gone, held, raw, dropped, x, lost);
      }
    }
  }

  // ---- whole runs ----

  lemma LengthAdded(sel: Selection, v: View, raw: seq<byte>, final: bool)
    requires Budgets(sel) && HoldsText(sel, v) && WholeLines(v.selected) && TextLine(v.selected, raw, final)
    ensures |Add(sel, v, Last(raw, sel.maxBytes), |raw|, final).0.selected| <= |v.selected| + |raw|
  {
    hide Shaped, Add, LineCount, WholeEnd, Textual;
    var gone := AddText(sel, v, raw, final);
    ChosenIsLine(sel, v.selected, raw, final);
    ChosenLength(sel, v.selected, raw, final);
  }

  /** The passing lines so far and the window's state: empty together, and one a text behind the other. */
  ghost predicate RunsText(sel: Selection, v: View, passed: seq<byte>)
  {
    HoldsText(sel, v) && WholeLines(v.selected) && (v.selected == [] <==> passed == [])
  }

  ghost predicate LineGapFree(sel: Selection, passed: seq<byte>, raw: seq<byte>)
  {
    sel.LineMatches(Content(raw)) ==> GapFree(sel, passed, raw)
  }

  /** One line of a run, passing or not. */
  lemma FinishText(sel: Selection, v: View, passed: seq<byte>, raw: seq<byte>, final: bool)
    requires Budgets(sel) && sel.initialLineSkipBytes == 0 && RunsText(sel, v, passed)
    requires TextLine(v.selected, raw, final)
    ensures var r, line := FinishLine(sel, v, raw, final), PassedLine(sel, v.lines, raw);
            && HoldsText(sel, r) && |r.selected| <= |v.selected| + |line|
            && (raw[|raw| - 1] == NEWLINE ==> RunsText(sel, r, passed + line))
            && (IsSuffix(r.selected, v.selected + line) <==> LineGapFree(sel, passed, raw))
  {
    hide *;
    FinishLineText(sel, v, raw, final);
    if sel.LineMatches(Content(raw)) {
      var w := v.(completed := v.completed + |raw|, lines := v.lines + 1, matched := v.matched + 1);
      LikeText(sel, v, w, passed, raw, final);
      var gone := AddText(sel, w, raw, final);
      AddTextGaps(sel, w, raw, final);
      LengthAdded(sel, w, raw, final);
      LineAdded(sel, v, w, passed, raw, gone, Add(sel, w, Last(raw, sel.maxBytes), |raw|, final).0,
                FinishLine(sel, v, raw, final));
    } else {
      assert v.selected + [] == v.selected && passed + [] == passed;
      LinePassedOver(sel, v, passed, raw, FinishLine(sel, v, raw, final));
    }
  }

  lemma FinishLineText(sel: Selection, v: View, raw: seq<byte>, final: bool)
    requires Budgets(sel) && sel.initialLineSkipBytes == 0
    ensures var r := FinishLine(sel, v, raw, final);
            var w := v.(completed := v.completed + |raw|, lines := v.lines + 1, matched := v.matched + 1);
            if sel.LineMatches(Content(raw)) then
              && PassedLine(sel, v.lines, raw) == raw
              && SameText(r, Add(sel, w, Last(raw, sel.maxBytes), |raw|, final).0)
            else PassedLine(sel, v.lines, raw) == [] && SameText(r, v)
  {
    hide Add, Selection.LineMatches, Content, Last;
    assert Offered(sel, v.lines, raw) == raw;
    LatestIsLast(raw, sel.maxBytes);
  }

  predicate SameText(a: View, b: View)
  {
    a.selected == b.selected && a.keptLines == b.keptLines && a.full == b.full
  }

  lemma LikeText(sel: Selection, v: View, w: View, passed: seq<byte>, raw: seq<byte>, final: bool)
    requires RunsText(sel, v, passed) && SameText(v, w) && TextLine(v.selected, raw, final)
    ensures v.selected == w.selected && HoldsText(sel, w) && WholeLines(w.selected)
    ensures raw != [] && (v.selected == [] <==> passed == [])
  {
  }

  lemma LineAdded(
    sel: Selection, v: View, w: View, passed: seq<byte>, raw: seq<byte>, gone: seq<byte>, x: View, r: View)
    requires raw != [] && AddsText(sel, w, raw, gone, x) && SameText(r, x) && v.selected == w.selected
    requires v.selected == [] <==> passed == []
    ensures r.selected == x.selected && HoldsText(sel, r)
    ensures raw[|raw| - 1] == NEWLINE ==> RunsText(sel, r, passed + raw)
    ensures sel.LineMatches(Content(raw)) ==> (GapFree(sel, w.selected, raw) <==> LineGapFree(sel, passed, raw))
  {
    hide Shaped, LineCount, Fits, CleanEnd, Dropped, WholeEnd;
  }

  lemma LinePassedOver(sel: Selection, v: View, passed: seq<byte>, raw: seq<byte>, r: View)
    requires RunsText(sel, v, passed) && SameText(r, v) && !sel.LineMatches(Content(raw))
    ensures RunsText(sel, r, passed) && HoldsText(sel, r) && IsSuffix(r.selected, v.selected)
    ensures LineGapFree(sel, passed, raw) && r.selected == v.selected
  {
  }

  lemma FinishLongest(sel: Selection, v: View, gone: seq<byte>, passed: seq<byte>, raw: seq<byte>, final: bool)
    returns (lost: seq<byte>)
    requires Budgets(sel) && sel.initialLineSkipBytes == 0 && RunsText(sel, v, passed)
    requires TextLine(v.selected, raw, final) && LineGapFree(sel, passed, raw)
    requires gone + v.selected == passed && Missing(sel, gone, v.selected)
    ensures var r, line := FinishLine(sel, v, raw, final), PassedLine(sel, v.lines, raw);
            lost + r.selected == passed + line && Missing(sel, lost, r.selected)
  {
    hide Shaped, Add, LineCount, Textual, Fits, Selection.LineMatches, Content, CleanEnd, Missing;
    assert Offered(sel, v.lines, raw) == raw;
    LatestIsLast(raw, sel.maxBytes);
    var w := v.(completed := v.completed + |raw|, lines := v.lines + 1, matched := v.matched + 1);
    if sel.LineMatches(Content(raw)) {
      lost := AddTextLongest(sel, w, gone, raw, final);
    } else {
      lost := gone;
    }
  }

  /** A line of a text is a text, and a whole one behind another line. */
  lemma LineOfText(s: seq<byte>, more: seq<byte>, raw: seq<byte>)
    requires Textual(s + more)
    requires if more == [] then raw == Pending(s) && raw != [] else more[0] == NEWLINE && raw == Pending(s) + [NEWLINE]
    ensures Textual(raw) && (0 < Newlines(s) ==> Shaped(raw))
  {
    hide Shaped, LeadingContinuations, Textual, Pending, Newlines;
    var t, start := s + more, |s| - |Pending(s)|;
    PendingIsLastLine(s);
    assert t[start..][..|raw|] == raw;
    if 0 < start {
      assert t[start - 1] == NEWLINE;
      BehindNewline(t, start);
      PieceOfText(t[start..], raw);
      WholeIsTextual(raw);
    } else {
      assert s == Pending(s) && t[0..] == t;
      NoNewlines(s);
      FirstLineOfText(t, raw);
    }
  }

  lemma BehindNewline(t: seq<byte>, start: nat)
    requires Textual(t) && 0 < start <= |t| && t[start - 1] == NEWLINE
    ensures Shaped(t[start..])
  {
    hide Shaped, LeadingContinuations;
    var k := LeadingContinuations(t);
    CutBehindNewline(t[k..], start - 1 - k);
    assert t[k..][start - k..] == t[start..];
  }

  lemma PieceOfText(t: seq<byte>, raw: seq<byte>)
    requires Shaped(t) && |raw| <= |t| && t[..|raw|] == raw && (raw == t || (raw != [] && raw[|raw| - 1] == NEWLINE))
    ensures Shaped(raw)
  {
    if raw != t { CutBehindNewline(t, |raw| - 1); }
  }

  lemma FirstLineOfText(t: seq<byte>, raw: seq<byte>)
    requires Textual(t) && 0 < |raw| <= |t| && t[..|raw|] == raw && (raw == t || raw[|raw| - 1] == NEWLINE)
    ensures Textual(raw)
  {
    hide Shaped, LeadingContinuations;
    var k := LeadingContinuations(t);
    if raw != t {
      assert k < |raw|;
      assert t[k..][..|raw| - k] == raw[k..];
      PieceOfText(t[k..], raw[k..]);
      StraysCounted(raw, k);
    }
  }

  lemma {:induction false} NothingPassedYet(sel: Selection, s: seq<byte>)
    requires Newlines(s) == 0
    ensures Passed(sel, s) == []
  {
    if s != [] { NothingPassedYet(sel, s[..|s| - 1]); }
  }

  /** The next line of a run is a line of text for the window. */
  lemma NextTextLine(sel: Selection, s: seq<byte>, more: seq<byte>, raw: seq<byte>, final: bool)
    requires RunsText(sel, Through(sel, s), Passed(sel, s)) && Textual(s + more)
    requires if more == [] then raw == Pending(s) && raw != [] && final
             else more[0] == NEWLINE && raw == Pending(s) + [NEWLINE]
    ensures TextLine(Through(sel, s).selected, raw, final) && Through(sel, s).lines == Newlines(s)
  {
    hide Shaped, Textual, Through, Passed, FinishLine, Pending, Newlines;
    LineOfText(s, more, raw);
    PendingIsOneLine(s);
    ThroughAccounted(sel, s);
    if Newlines(s) == 0 { NothingPassedYet(sel, s); }
  }

  lemma {:induction false} ThroughText(sel: Selection, s: seq<byte>, more: seq<byte>)
    requires Budgets(sel) && sel.initialLineSkipBytes == 0 && Textual(s + more)
    ensures RunsText(sel, Through(sel, s), Passed(sel, s))
  {
    hide *;
    if s == [] {
      NothingRuns(sel);
    } else {
      var before, b := s[..|s| - 1], s[|s| - 1];
      assert before + [b] == s && before + ([b] + more) == s + more;
      ThroughText(sel, before, [b] + more);
      ThroughTextByte(sel, before, b, more);
    }
  }

  lemma NothingRuns(sel: Selection)
    requires Budgets(sel)
    ensures RunsText(sel, Through(sel, []), Passed(sel, []))
    ensures Through(sel, []).selected == [] == Passed(sel, [])
  {
  }

  lemma ThroughTextByte(sel: Selection, s: seq<byte>, b: byte, more: seq<byte>)
    requires Budgets(sel) && sel.initialLineSkipBytes == 0 && Textual(s + ([b] + more))
    requires RunsText(sel, Through(sel, s), Passed(sel, s))
    ensures RunsText(sel, Through(sel, s + [b]), Passed(sel, s + [b]))
    ensures var t := s + [b]; var line := Pending(s) + [NEWLINE];
            if b != NEWLINE then
              Through(sel, t).selected == Through(sel, s).selected && Passed(sel, t) == Passed(sel, s)
            else
              && TextLine(Through(sel, s).selected, line, false)
              && Passed(sel, t) == Passed(sel, s) + PassedLine(sel, Through(sel, s).lines, line)
              && Through(sel, t) == FinishLine(sel, Through(sel, s), line, false)
  {
    hide Shaped, Textual, Through, Passed, FinishLine, Pending, Newlines, RunsText, Budgets, TextLine, PassedLine;
    ThroughByte(sel, s, b);
    PassedByte(sel, s, b);
    if b == NEWLINE {
      var line := Pending(s) + [NEWLINE];
      NextTextLine(sel, s, [b] + more, line, false);
      FinishText(sel, Through(sel, s), Passed(sel, s), line, false);
    }
  }

  /** Every passing line with an older one before it fits the window or ends cleanly, or one line is all there is. */
  ghost predicate GaplessLines(sel: Selection, s: seq<byte>)
  {
    s == [] ||
    var before := s[..|s| - 1];
    && GaplessLines(sel, before)
    && (s[|s| - 1] == NEWLINE ==> LineGapFree(sel, Passed(sel, before), Pending(before) + [NEWLINE]))
  }

  ghost predicate Gapless(sel: Selection, s: seq<byte>)
  {
    GaplessLines(sel, s) && (Pending(s) != [] ==> LineGapFree(sel, Passed(sel, s), Pending(s)))
  }

  /** After this much input the selection is the end of the passing lines, with nothing missing in between. */
  ghost predicate NoGapThrough(sel: Selection, s: seq<byte>)
  {
    IsSuffix(Through(sel, s).selected, Passed(sel, s))
  }

  lemma GaplessByte(sel: Selection, s: seq<byte>, b: byte)
    ensures GaplessLines(sel, s + [b]) <==>
              && GaplessLines(sel, s)
              && (b == NEWLINE ==> LineGapFree(sel, Passed(sel, s), Pending(s) + [NEWLINE]))
  {
    assert (s + [b])[..|s|] == s;
  }

  /** What counts is whether the line leaves a gap behind what was kept just before it. */
  lemma GapIsHere(x: seq<byte>, held: seq<byte>, line: seq<byte>, passed: seq<byte>)
    requires IsSuffix(held, passed) && |x| <= |held| + |line|
    ensures IsSuffix(x, passed + line) <==> IsSuffix(x, held + line)
  {
    assert (passed + line)[|passed| - |held|..] == held + line;
    assert (passed + line)[|passed| + |line| - |x|..] == (held + line)[|held| + |line| - |x|..];
  }

  lemma NoGapByte(sel: Selection, s: seq<byte>, b: byte, more: seq<byte>)
    requires Budgets(sel) && sel.initialLineSkipBytes == 0 && Textual(s + ([b] + more)) && NoGapThrough(sel, s)
    ensures NoGapThrough(sel, s + [b]) <==>
              (b == NEWLINE ==> LineGapFree(sel, Passed(sel, s), Pending(s) + [NEWLINE]))
  {
    hide Shaped, Textual, Through, Passed, FinishLine, Pending, Newlines, RunsText, Budgets, TextLine, PassedLine;
    hide IsSuffix, LineGapFree;
    ThroughText(sel, s, [b] + more);
    ThroughTextByte(sel, s, b, more);
    if b == NEWLINE {
      var v, line := Through(sel, s), Pending(s) + [NEWLINE];
      FinishText(sel, v, Passed(sel, s), line, false);
      GapIsHere(Through(sel, s + [b]).selected, v.selected, PassedLine(sel, v.lines, line), Passed(sel, s));
    }
  }

  ghost predicate NoGapBefore(sel: Selection, s: seq<byte>, end: nat)
  {
    forall n :: 0 <= n <= end && n <= |s| ==> NoGapThrough(sel, s[..n])
  }

  lemma NothingBefore(sel: Selection, s: seq<byte>)
    requires s == []
    ensures NoGapBefore(sel, s, 0) && GaplessLines(sel, s)
  {
  }

  lemma OneMoreBefore(sel: Selection, s: seq<byte>, b: byte)
    ensures NoGapBefore(sel, s + [b], |s| + 1) <==> NoGapBefore(sel, s, |s|) && NoGapThrough(sel, s + [b])
    ensures NoGapBefore(sel, s, |s|) ==> NoGapThrough(sel, s)
  {
    hide NoGapThrough;
    var t := s + [b];
    assert forall n :: 0 <= n <= |s| ==> t[..n] == s[..n];
    assert t[..|t|] == t && s[..|s|] == s;
    if NoGapBefore(sel, t, |s| + 1) {
      forall n | 0 <= n <= |s| ensures NoGapThrough(sel, s[..n]) { assert NoGapThrough(sel, t[..n]); }
    }
  }

  lemma {:induction false} GapsExactlyThrough(sel: Selection, s: seq<byte>, more: seq<byte>)
    requires Budgets(sel) && sel.initialLineSkipBytes == 0 && Textual(s + more)
    ensures NoGapBefore(sel, s, |s|) <==> GaplessLines(sel, s)
  {
    hide *;
    if s == [] {
      NothingBefore(sel, s);
    } else {
      var before, b := s[..|s| - 1], s[|s| - 1];
      assert before + [b] == s && before + ([b] + more) == s + more;
      GapsExactlyThrough(sel, before, [b] + more);
      GaplessByte(sel, before, b);
      OneMoreBefore(sel, before, b);
      if NoGapBefore(sel, before, |before|) { NoGapByte(sel, before, b, more); }
    }
  }

  /** The last, unfinished line of a text that has ended. */
  lemma EndedText(sel: Selection, s: seq<byte>)
    requires Budgets(sel) && sel.initialLineSkipBytes == 0 && Textual(s)
    ensures HoldsText(sel, Ended(sel, s, true))
    ensures NoGapThrough(sel, s) ==>
              (IsSuffix(Ended(sel, s, true).selected, PassedInAll(sel, s)) <==>
               (Pending(s) != [] ==> LineGapFree(sel, Passed(sel, s), Pending(s))))
  {
    hide Shaped, Textual, Through, Passed, FinishLine, Pending, Newlines, Budgets, TextLine, PassedLine;
    hide IsSuffix, LineGapFree;
    assert s + [] == s;
    ThroughText(sel, s, []);
    if Pending(s) != [] {
      var v, line := Through(sel, s), Pending(s);
      NextTextLine(sel, s, [], line, true);
      FinishText(sel, v, Passed(sel, s), line, true);
      if NoGapThrough(sel, s) {
        GapIsHere(Ended(sel, s, true).selected, v.selected, PassedLine(sel, v.lines, line), Passed(sel, s));
      }
    }
  }

  /** The exact condition: a text tail never has a gap, at no point of the run and not at its end, if and only if
      every passing line behind an older one fits the window or its kept end starts on a code point. */
  lemma GapsExactly(sel: Selection, s: seq<byte>)
    requires Budgets(sel) && sel.initialLineSkipBytes == 0 && Textual(s)
    ensures NoGapBefore(sel, s, |s|) && IsSuffix(Ended(sel, s, true).selected, PassedInAll(sel, s))
            <==> Gapless(sel, s)
  {
    hide Shaped, Textual, Through, Passed, Pending, GaplessLines, Budgets, Ended, PassedInAll, LineGapFree;
    assert s + [] == s && s[..|s|] == s;
    GapsExactlyThrough(sel, s, []);
    EndedText(sel, s);
  }

  /** The longest end of a text within both budgets that starts on a code point. */
  ghost predicate LongestText(sel: Selection, x: seq<byte>, whole: seq<byte>)
  {
    Fits(sel, x) && Shaped(x) && IsSuffix(x, whole) && Missing(sel, whole[..|whole| - |x|], x)
  }

  lemma LongestBehind(sel: Selection, lost: seq<byte>, x: seq<byte>)
    requires Missing(sel, lost, x) && Fits(sel, x) && Shaped(x)
    ensures LongestText(sel, x, lost + x)
  {
    hide Fits, Shaped, Missing;
    assert (lost + x)[..|lost|] == lost;
  }

  lemma {:induction false} ThroughLongest(sel: Selection, s: seq<byte>, more: seq<byte>) returns (lost: seq<byte>)
    requires Budgets(sel) && sel.initialLineSkipBytes == 0 && Textual(s + more) && GaplessLines(sel, s)
    ensures lost + Through(sel, s).selected == Passed(sel, s) && Missing(sel, lost, Through(sel, s).selected)
  {
    hide *;
    if s == [] {
      lost := [];
      NothingRuns(sel);
      NothingMissing(sel);
    } else {
      var before, b := s[..|s| - 1], s[|s| - 1];
      assert before + [b] == s && before + ([b] + more) == s + more;
      GaplessByte(sel, before, b);
      lost := ThroughLongest(sel, before, [b] + more);
      ThroughText(sel, before, [b] + more);
      ThroughTextByte(sel, before, b, more);
      if b == NEWLINE {
        lost := FinishLongest(
          sel, Through(sel, before), lost, Passed(sel, before), Pending(before) + [NEWLINE], false);
      }
    }
  }

  lemma NothingMissing(sel: Selection)
    ensures Missing(sel, [], [])
  {
  }

  /** A text tail keeps whole code points within both budgets and counts their lines; without a gap it is the longest
      end of the passing lines that does. */
  lemma TailTextIsLongest(sel: Selection, s: seq<byte>)
    requires Budgets(sel) && sel.initialLineSkipBytes == 0 && Textual(s)
    ensures var v := Ended(sel, s, true);
            && Fits(sel, v.selected) && Shaped(v.selected) && v.keptLines == LineCount(v.selected)
            && (Gapless(sel, s) ==> LongestText(sel, v.selected, PassedInAll(sel, s)))
  {
    hide Shaped, Textual, Through, Passed, Pending, FinishLine, GaplessLines, Budgets, TextLine, PassedLine, Missing;
    hide LineGapFree, LongestText, Fits, RunsText, LineCount;
    EndedText(sel, s);
    if Gapless(sel, s) {
      assert s + [] == s;
      ThroughText(sel, s, []);
      var lost := ThroughLongest(sel, s, []);
      if Pending(s) != [] {
        NextTextLine(sel, s, [], Pending(s), true);
        lost := FinishLongest(sel, Through(sel, s), lost, Passed(sel, s), Pending(s), true);
      }
      LongestBehind(sel, lost, Ended(sel, s, true).selected);
    }
  }
}
