/** The window generator (`generate_windows`) and the per-cycle cap
    (`max_windows_per_cycle`) that the collection loop applies to it. */
module Windowing {
  import opened Common

  /** A half-open interval `[start, end)` of collection time. */
  datatype Window = Window(start: Time, end: Time)

  /** The one-hour windows from `start` up to `end`, oldest first. */
  function Windows(start: Time, end: Time): (ws: seq<Window>)
    ensures ws == [] <==> end < start + HourSeconds
    ensures forall i :: 0 <= i < |ws| ==>
      ws[i].end == ws[i].start + HourSeconds && start <= ws[i].start && ws[i].end <= end
    decreases end - start
  {
    if start + HourSeconds <= end then
      [Window(start, start + HourSeconds)] + Windows(start + HourSeconds, end)
    else
      []
  }

  /** The generator loop: `start` advances by one hour per yielded window. */
  method GenerateWindows(start: Time, end: Time) returns (ws: seq<Window>)
    ensures ws == Windows(start, end)
  {
    ws := [];
    var s := start;
    while s + HourSeconds <= end
      invariant ws + Windows(s, end) == Windows(start, end)
      decreases end - s
    {
      ws := ws + [Window(s, s + HourSeconds)];
      s := s + HourSeconds;
    }
  }

  /** The i-th window is the i-th hour after `start`, and lies before `end`. */
  lemma {:induction false} WindowAt(start: Time, end: Time, i: nat)
    requires i < |Windows(start, end)|
    ensures Windows(start, end)[i] == Window(start + i * HourSeconds, start + (i + 1) * HourSeconds)
    ensures start + (i + 1) * HourSeconds <= end
    decreases end - start
  {
    if i > 0 {
      WindowAt(start + HourSeconds, end, i - 1);
    }
  }

  /** The number of windows is the number of whole hours in the range: a
      trailing partial hour is never emitted, no whole hour is missed, and
      nothing at all is generated exactly when not even one hour fits. */
  lemma {:induction false} WindowsCount(start: Time, end: Time)
    ensures Windows(start, end) == [] <==> end < start + HourSeconds
    ensures start + |Windows(start, end)| * HourSeconds <= if start <= end then end else start
    ensures end < start + (|Windows(start, end)| + 1) * HourSeconds
    decreases end - start
  {
    if start + HourSeconds <= end {
      WindowsCount(start + HourSeconds, end);
    }
  }

  /** The shape the collection loop relies on: every window is one hour
      long, the first starts at `start`, each starts where the previous one
      ended, and each ends no later than `end`. */
  lemma WindowsContiguous(start: Time, end: Time)
    ensures var ws := Windows(start, end);
      && (|ws| > 0 ==> ws[0].start == start)
      && (forall i :: 0 <= i < |ws| ==> ws[i].end == ws[i].start + HourSeconds && ws[i].end <= end)
      && (forall i :: 0 <= i < |ws| - 1 ==> ws[i + 1].start == ws[i].end)
  {
    var ws := Windows(start, end);
    forall i | 0 <= i < |ws|
      ensures ws[i].end == ws[i].start + HourSeconds && ws[i].end <= end
    {
      WindowAt(start, end, i);
    }
    forall i | 0 <= i < |ws| - 1
      ensures ws[i + 1].start == ws[i].end
    {
      WindowAt(start, end, i);
      WindowAt(start, end, i + 1);
    }
  }

  /** Contiguous windows in the sense of `WindowsContiguous`, from `start`. */
  ghost predicate ChainFrom(ws: seq<Window>, start: Time)
  {
    && (|ws| > 0 ==> ws[0].start == start)
    && (forall i :: 0 <= i < |ws| ==> ws[i].start < ws[i].end)
    && (forall i :: 0 <= i < |ws| - 1 ==> ws[i + 1].start == ws[i].end)
  }

  /** In a chain every window starts at or after the chain's start and ends
      at or before the end of any later window. */
  lemma {:induction false} ChainMonotone(ws: seq<Window>, start: Time, i: nat, j: nat)
    requires ChainFrom(ws, start)
    requires i <= j < |ws|
    ensures start <= ws[i].start < ws[i].end <= ws[j].end
    ensures i < j ==> ws[i].end <= ws[j].start
    decreases j
  {
    if i < j {
      ChainMonotone(ws, start, i, j - 1);
    } else if i > 0 {
      ChainMonotone(ws, start, i - 1, i - 1);
    }
  }

  /** `list(windows)[:max_windows]` when `max_windows` is non-zero. */
  function CapWindows(ws: seq<Window>, maxWindows: nat): (r: seq<Window>)
    ensures r <= ws
    ensures maxWindows > 0 ==> |r| <= maxWindows
    ensures |r| < |ws| ==> maxWindows > 0 && |r| == maxWindows
  {
    if maxWindows > 0 && maxWindows < |ws| then ws[..maxWindows] else ws
  }

  /** The windows a collection cycle processes form a chain from the
      watermark, each inside `[start, end]`. */
  lemma CappedWindowsChain(start: Time, end: Time, maxWindows: nat)
    ensures ChainFrom(CapWindows(Windows(start, end), maxWindows), start)
    ensures forall w :: w in CapWindows(Windows(start, end), maxWindows) ==> start <= w.start && w.end <= end
  {
    WindowsContiguous(start, end);
    var ws := Windows(start, end);
    var cs := CapWindows(ws, maxWindows);
    assert forall i :: 0 <= i < |cs| ==> cs[i] == ws[i];
    forall w | w in cs
      ensures start <= w.start && w.end <= end
    {
      var i :| 0 <= i < |cs| && cs[i] == w;
      WindowAt(start, end, i);
    }
  }
}
