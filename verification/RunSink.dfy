/**
 * A window and the raw copy on disk that backs it: what the window withholds
 * is in the copy, and the copy goes only when the window has every byte.
 */
module RunSinks {
  import opened Bytes
  import opened ByteBuffers
  import opened WindowSpec
  import opened OutputWindows
  import opened Wrappers

  /** What the file system does with one chunk: how much it takes before it fails, if it fails. */
  datatype WriteOutcome = Written | OpenFailed | WriteFailed(taken: nat)

  datatype Finish = Finish(retained: bool, failed: bool)

  class RunSink {
    const window: OutputWindow
    /** The raw copy, once the first byte has opened it. */
    var file: Option<seq<byte>>
    var writeError: bool
    var retained: bool

    ghost predicate Valid()
      reads this, window, window.Parts()
    {
      && this !in window.Parts() && window.Valid()
      && window.sel.initialLineSkipBytes == 0 && 0 < window.sel.maxBytes
      && (!writeError ==> file == if window.fed == [] then None else Some(window.fed))
    }

    constructor (sel: Selection)
      requires Normalized(sel) && sel.initialLineSkipBytes == 0 && !sel.preserveRawPageBytes
      ensures Valid() && fresh(window) && fresh(window.Parts())
      ensures window.sel == sel && window.fed == [] && !window.ended && !writeError
    {
      hide OutputWindow.Valid;
      var w := OpenWindow(sel);
      window := w;
      file, writeError, retained := None, false, false;
    }

    /** The window gets every byte; the copy grows until a write fails, and never after. */
    method push(raw: seq<byte>, outcome: WriteOutcome)
      requires Valid() && !window.ended && (outcome.WriteFailed? ==> outcome.taken < |raw|)
      modifies this, window, window.Parts()
      ensures Valid() && !window.ended && window.fed == old(window.fed) + raw
      ensures writeError <==> old(writeError) || (raw != [] && outcome != Written)
    {
      hide OutputWindow.Valid;
      if |raw| == 0 {
        assert window.fed + raw == window.fed;
        return;
      }
      window.pushRaw(raw);
      if writeError { return; }
      if file.None? {
        if outcome.OpenFailed? {
          writeError := true;
          return;
        }
        file := Some([]);
      }
      match outcome
      case Written => file := Some(file.value + raw);
      case WriteFailed(taken) =>
        file := Some(file.value + raw[..taken]);
        writeError := true;
      case OpenFailed =>
        writeError := true;
    }

    /** `force` keeps the copy even if the window holds every byte. */
    method finish(force: bool) returns (r: Finish)
      requires Valid() && !window.ended
      modifies this, window, window.Parts()
      ensures window.Valid() && window.ended && window.fed == old(window.fed)
      ensures r.failed <==> old(writeError)
      ensures r.retained ==> file == Some(window.fed)
      ensures !r.retained ==> file == None
      ensures !r.failed ==>
                (r.retained <==> window.fed != [] && (force || window.Shown().selected != window.fed))
    {
      hide OutputWindow.Valid;
      window.end(true);
      WithheldMeansMissing(window);
      if writeError {
        file := None;
        return Finish(false, true);
      }
      if window.bytes == 0 { return Finish(false, false); }
      if !window.withheld() && !force {
        file := None;
        return Finish(false, false);
      }
      retained := true;
      r := Finish(true, false);
    }
  }

  /** After the end, content is withheld exactly when the window does not hold the whole stream. */
  lemma WithheldMeansMissing(w: OutputWindow)
    requires w.Valid() && w.ended && w.sel.initialLineSkipBytes == 0 && 0 < w.sel.maxBytes
    ensures w.selected.Valid() && w.bytes == |w.fed|
    ensures w.withheld() <==> w.Shown().selected != w.fed
  {
    hide Ended;
    w.Closing();
    WithheldIsHonest(w.sel, w.fed, w.finalUtf8);
  }
}
