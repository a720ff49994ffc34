/** `splitIntoChunks` of src/lib/rag-service.ts.

    The loop takes windows of up to 1000 characters. When text remains after a window, it
    looks for the last '.' or '\n' inside the window; the position found is relative to the
    window, but the code compares it with the absolute `start + 500` and then uses it as an
    absolute index. The snap therefore only fires in a window that starts before 499, which
    is the first one; every later window advances by 800 and overlaps the next by 200. */
module RagChunking {
  import opened JsBuiltins

  const ChunkSize: nat := 1000
  const ChunkOverlap: nat := 200

  /** One turn of the loop: the slice [start, stop) it cuts, the cursor it moves to, and
      whether the sentence snap fired. */
  datatype Window = Window(start: nat, stop: nat, next: nat, snapped: bool)

  predicate IsBreak(c: char) { c == '.' || c == '\n' }

  /** `Math.max(chunk.lastIndexOf("."), chunk.lastIndexOf("\n"))`: the last break character
      of the window, relative to the window, or -1. */
  function LastBreak(chunk: string): (bp: int)
    ensures -1 <= bp < |chunk|
    ensures bp >= 0 ==> IsBreak(chunk[bp])
    ensures forall k :: bp < k < |chunk| ==> !IsBreak(chunk[k])
  {
    Max(LastIndexOf(chunk, '.'), LastIndexOf(chunk, '\n'))
  }

  /** One turn of the loop from cursor `start`. The snap fires exactly when text remains
      after the full window and the window-relative break point exceeds the absolute
      `start + 500`; the slice then ends, and the cursor moves, one past that break point
      read as an absolute index. */
  function WindowAt(text: string, start: nat): (w: Window)
    requires start < |text|
    ensures w.snapped <==>
              start + ChunkSize < |text| && LastBreak(text[start..start + ChunkSize]) > start + ChunkSize / 2
    ensures w.snapped ==> w.stop == LastBreak(text[start..start + ChunkSize]) + 1
    ensures w.start == start < w.stop <= |text| && w.stop - start <= ChunkSize
    ensures start < w.next <= w.stop
    ensures w.snapped ==> start < 499 && w.next == w.stop > start + 501 && w.stop <= ChunkSize
    ensures w.snapped ==> start + w.stop - 1 < |text| && IsBreak(text[start + w.stop - 1])
    ensures !w.snapped ==> w.stop == Min(start + ChunkSize, |text|)
    ensures !w.snapped && w.stop < |text| ==> w.next == start + ChunkSize - ChunkOverlap
    ensures w.stop == |text| ==> w.next == |text|
  {
    var end := Min(start + ChunkSize, |text|);
    if end < |text| then
      var chunk := text[start..end];
      var breakPoint := LastBreak(chunk);
      if breakPoint > start + ChunkSize / 2 then
        assert chunk[breakPoint] == text[start + breakPoint];
        Window(start, breakPoint + 1, breakPoint + 1, true)
      else
        Window(start, end, end - ChunkOverlap, false)
    else
      Window(start, end, end, false)
  }

  predicate WindowIn(text: string, w: Window)
  {
    w.start < w.stop <= |text| && w.stop - w.start <= ChunkSize
  }

  predicate AllWithin(text: string, ws: seq<Window>)
  {
    forall k :: 0 <= k < |ws| ==> WindowIn(text, ws[k])
  }

  /** The windows the loop visits from cursor `start` on. */
  function WindowsFrom(text: string, start: nat): (ws: seq<Window>)
    ensures AllWithin(text, ws)
    ensures start < |text| <==> ws != []
    decreases |text| - start
  {
    if start >= |text| then []
    else
      var w := WindowAt(text, start);
      [w] + WindowsFrom(text, w.next)
  }

  lemma WindowsFromStep(text: string, start: nat)
    requires start < |text|
    ensures WindowsFrom(text, start)[0] == WindowAt(text, start)
    ensures WindowsFrom(text, start)[1..] == WindowsFrom(text, WindowAt(text, start).next)
  {
  }

  /** Consecutive windows overlap or touch, the cursor strictly increases, and the last
      window reaches the end of the text: together the windows cover text[start..]. */
  lemma {:induction false} WindowsCover(text: string, start: nat)
    ensures var ws := WindowsFrom(text, start);
      ws != [] ==> ws[0].start == start && ws[|ws| - 1].stop == |text|
    ensures var ws := WindowsFrom(text, start);
      forall k :: 0 <= k < |ws| - 1 ==> ws[k].start < ws[k + 1].start == ws[k].next <= ws[k].stop
    decreases |text| - start
  {
    if start < |text| {
      var ws := WindowsFrom(text, start);
      var w := WindowAt(text, start);
      WindowsFromStep(text, start);
      WindowsCover(text, w.next);
      var tail := WindowsFrom(text, w.next);
      assert ws == [w] + tail;
      forall k | 0 <= k < |ws| - 1
        ensures ws[k].start < ws[k + 1].start == ws[k].next <= ws[k].stop
      {
        if k > 0 {
          assert ws[k] == tail[k - 1] && ws[k + 1] == tail[k];
        }
      }
    }
  }

  /** The chunks the loop keeps from a list of windows: each window's slice, trimmed, when
      the trim is not empty. */
  function Kept(text: string, ws: seq<Window>): (chunks: seq<string>)
    requires AllWithin(text, ws)
    ensures |chunks| <= |ws|
  {
    if ws == [] then []
    else
      assert WindowIn(text, ws[0]);
      Piece(text[ws[0].start..ws[0].stop]) + Kept(text, ws[1..])
  }

  /** `if (chunk.trim()) chunks.push(chunk.trim())`: the trimmed slice, or nothing when blank. */
  function Piece(slice: string): (p: seq<string>)
    ensures |p| <= 1
    ensures p == [] <==> !HasContent(slice)
    ensures p != [] ==> p[0] == Trim(slice) && p[0] != [] && Trim(p[0]) == p[0]
  {
    TrimIdempotent(slice);
    TrimEnds(slice);
    if HasContent(slice) then [Trim(slice)] else []
  }

  /** What `splitIntoChunks(text)` returns. */
  function Chunks(text: string): seq<string>
  {
    Kept(text, WindowsFrom(text, 0))
  }

  lemma {:induction false} KeptAppend(text: string, ws: seq<Window>, w: Window)
    requires AllWithin(text, ws)
    requires WindowIn(text, w)
    ensures Kept(text, ws + [w]) == Kept(text, ws) + Piece(text[w.start..w.stop])
    decreases |ws|
  {
    if ws == [] {
      assert ws + [w] == [w];
      assert Kept(text, [w]) == Piece(text[w.start..w.stop]) + Kept(text, []);
    } else {
      assert (ws + [w])[1..] == ws[1..] + [w];
      KeptAppend(text, ws[1..], w);
    }
  }

  /** Moving the cursor past one window appends that window to the ones already visited,
      and its piece to the chunks kept so far. */
  lemma VisitWindow(text: string, start: nat, visited: seq<Window>)
    requires start < |text|
    requires AllWithin(text, visited)
    ensures var w := WindowAt(text, start);
      && AllWithin(text, visited + [w])
      && visited + [w] + WindowsFrom(text, w.next) == visited + WindowsFrom(text, start)
      && Kept(text, visited + [w]) == Kept(text, visited) + Piece(text[w.start..w.stop])
  {
    var w := WindowAt(text, start);
    var tail := WindowsFrom(text, w.next);
    WindowsFromStep(text, start);
    assert WindowsFrom(text, start) == [w] + tail;
    assert visited + [w] + tail == visited + ([w] + tail);
    forall k | 0 <= k < |visited + [w]|
      ensures WindowIn(text, (visited + [w])[k])
    {
      if k < |visited| {
        assert (visited + [w])[k] == visited[k];
      }
    }
    KeptAppend(text, visited, w);
  }

  /** One turn of the loop body: the slice it cuts at cursor `start` and the cursor it
      moves to. */
  method CutAt(text: string, start: nat) returns (chunk: string, next: nat)
    requires start < |text|
    ensures var w := WindowAt(text, start);
      chunk == text[w.start..w.stop] && next == w.next
  {
    var end := Min(start + ChunkSize, |text|);
    chunk := text[start..end];
    if end < |text| {
      var lastPeriod := LastIndexOf(chunk, '.');
      var lastNewline := LastIndexOf(chunk, '\n');
      var breakPoint := Max(lastPeriod, lastNewline);
      if breakPoint > start + ChunkSize / 2 {
        chunk := text[start..breakPoint + 1];
        next := breakPoint + 1;
      } else {
        next := end - ChunkOverlap;
      }
    } else {
      next := end;
    }
  }

  /** The loop as the source writes it. */
  method SplitIntoChunks(text: string) returns (chunks: seq<string>)
    ensures chunks == Chunks(text)
  {
    chunks := [];
    var start := 0;
    ghost var done: seq<Window> := [];
    while start < |text|
      invariant start <= |text|
      invariant AllWithin(text, done)
      invariant done + WindowsFrom(text, start) == WindowsFrom(text, 0)
      invariant chunks == Kept(text, done)
      decreases |text| - start
    {
      ghost var w := WindowAt(text, start);
      VisitWindow(text, start, done);
      var chunk;
      chunk, start := CutAt(text, start);
      var trimmed := Trim(chunk);
      TrimEnds(chunk);
      if trimmed != [] {
        chunks := chunks + [trimmed];
      }
      assert chunks == Kept(text, done) + Piece(chunk);
      done := done + [w];
    }
    assert done + WindowsFrom(text, start) == done;
  }

  // ---------------------------------------------------------------------------
  // Properties of the chunks
  // ---------------------------------------------------------------------------

  /** Every kept chunk is non-empty and equals its own trim. */
  lemma {:induction false} KeptTrimmed(text: string, ws: seq<Window>)
    requires AllWithin(text, ws)
    ensures forall i :: 0 <= i < |Kept(text, ws)| ==>
              Kept(text, ws)[i] != [] && Trim(Kept(text, ws)[i]) == Kept(text, ws)[i]
    decreases |ws|
  {
    if ws != [] {
      KeptTrimmed(text, ws[1..]);
      var head := Piece(text[ws[0].start..ws[0].stop]);
      var rest := Kept(text, ws[1..]);
      assert Kept(text, ws) == head + rest;
      forall i | 0 <= i < |head + rest|
        ensures (head + rest)[i] != [] && Trim((head + rest)[i]) == (head + rest)[i]
      {
        if i >= |head| {
          assert (head + rest)[i] == rest[i - |head|];
        } else {
          assert (head + rest)[i] == head[0];
        }
      }
    }
  }

  /** The trimmed slice of window `w`. */
  function TrimmedSlice(text: string, w: Window): string
    requires WindowIn(text, w)
  {
    Trim(text[w.start..w.stop])
  }

  /** Every kept chunk is the trim of one window's slice. */
  lemma {:induction false} KeptFromWindows(text: string, ws: seq<Window>)
    requires AllWithin(text, ws)
    ensures forall c :: c in Kept(text, ws) ==> exists k :: 0 <= k < |ws| && c == TrimmedSlice(text, ws[k])
    decreases |ws|
  {
    if ws != [] {
      KeptFromWindows(text, ws[1..]);
      var head := Piece(text[ws[0].start..ws[0].stop]);
      var rest := Kept(text, ws[1..]);
      assert Kept(text, ws) == head + rest;
      forall c | c in head + rest
        ensures exists k :: 0 <= k < |ws| && c == TrimmedSlice(text, ws[k])
      {
        if c in head {
          assert c == TrimmedSlice(text, ws[0]);
        } else {
          var j :| 0 <= j < |ws[1..]| && c == TrimmedSlice(text, ws[1..][j]);
          assert ws[1..][j] == ws[j + 1];
        }
      }
    }
  }

  /** Every chunk is non-empty, equals its own trim, and is the trim of a slice of the text
      at most 1000 characters wide. */
  lemma ChunksAreTrimmedSlices(text: string)
    ensures forall i :: 0 <= i < |Chunks(text)| ==> Chunks(text)[i] != [] && Trim(Chunks(text)[i]) == Chunks(text)[i]
    ensures forall i :: 0 <= i < |Chunks(text)| ==>
              exists s: nat, e: nat :: s < e <= |text| && e - s <= ChunkSize && Chunks(text)[i] == Trim(text[s..e])
  {
    var ws := WindowsFrom(text, 0);
    KeptTrimmed(text, ws);
    KeptFromWindows(text, ws);
    forall i | 0 <= i < |Chunks(text)|
      ensures exists s: nat, e: nat :: s < e <= |text| && e - s <= ChunkSize && Chunks(text)[i] == Trim(text[s..e])
    {
      assert Chunks(text)[i] in Kept(text, ws);
      var k :| 0 <= k < |ws| && Chunks(text)[i] == TrimmedSlice(text, ws[k]);
      assert WindowIn(text, ws[k]);
    }
  }

  /** Text no longer than one window gives its trim as the only chunk, or nothing when it
      is blank. */
  lemma ShortText(text: string)
    requires |text| <= ChunkSize
    ensures Chunks(text) == if HasContent(text) then [Trim(text)] else []
  {
    if text != [] {
      var ws := WindowsFrom(text, 0);
      assert ws == [WindowAt(text, 0)];
      assert text[0..|text|] == text;
    }
  }

  /** From a cursor at 499 or later the snap never fires. */
  lemma {:induction false} NoSnapAfterStart(text: string, start: nat)
    requires start >= 499
    ensures forall k :: 0 <= k < |WindowsFrom(text, start)| ==> !WindowsFrom(text, start)[k].snapped
    decreases |text| - start
  {
    if start < |text| {
      var w := WindowAt(text, start);
      var ws := WindowsFrom(text, start);
      var tail := WindowsFrom(text, w.next);
      WindowsFromStep(text, start);
      NoSnapAfterStart(text, w.next);
      assert ws == [w] + tail;
      forall k | 0 < k < |ws| ensures !ws[k].snapped {
        assert ws[k] == tail[k - 1];
      }
    }
  }

  /** The snap fires in the first window at most, and there it cuts right after a '.' or
      '\n': every later window starts at 502 or beyond and is never snapped. */
  lemma SnapOnlyInFirstWindow(text: string)
    ensures var ws := WindowsFrom(text, 0);
      forall k :: 0 < k < |ws| ==> !ws[k].snapped && ws[k].start >= 502
    ensures var ws := WindowsFrom(text, 0);
      ws != [] && ws[0].snapped ==> IsBreak(text[ws[0].stop - 1])
  {
    var ws := WindowsFrom(text, 0);
    if ws != [] {
      var w := WindowAt(text, 0);
      var tail := WindowsFrom(text, w.next);
      WindowsFromStep(text, 0);
      assert ws == [w] + tail;
      if tail != [] {
        assert w.next >= 502;
        NoSnapAfterStart(text, w.next);
        CursorsFrom(text, w.next);
        forall k | 0 < k < |ws| ensures !ws[k].snapped && ws[k].start >= 502 {
          assert ws[k] == tail[k - 1];
        }
      }
    }
  }

  /** Every window of WindowsFrom(text, start) starts at `start` or later. */
  lemma {:induction false} CursorsFrom(text: string, start: nat)
    ensures forall k :: 0 <= k < |WindowsFrom(text, start)| ==> WindowsFrom(text, start)[k].start >= start
    decreases |text| - start
  {
    if start < |text| {
      var w := WindowAt(text, start);
      var ws := WindowsFrom(text, start);
      var tail := WindowsFrom(text, w.next);
      WindowsFromStep(text, start);
      CursorsFrom(text, w.next);
      assert ws == [w] + tail;
      forall k | 0 < k < |ws| ensures ws[k].start >= start {
        assert ws[k] == tail[k - 1];
      }
    }
  }

  /** Text with no '.' and no '\n' degrades to fixed windows 800 apart. */
  lemma {:induction false} FixedWindows(text: string, start: nat)
    requires forall i :: 0 <= i < |text| ==> !IsBreak(text[i])
    ensures var ws := WindowsFrom(text, start);
      forall k :: 0 <= k < |ws| ==> ws[k].start == start + k * (ChunkSize - ChunkOverlap)
    decreases |text| - start
  {
    if start < |text| {
      var w := WindowAt(text, start);
      var ws := WindowsFrom(text, start);
      var tail := WindowsFrom(text, w.next);
      WindowsFromStep(text, start);
      assert ws == [w] + tail;
      if tail != [] {
        assert !w.snapped;
        FixedWindows(text, w.next);
        forall k | 0 < k < |ws| ensures ws[k].start == start + k * (ChunkSize - ChunkOverlap) {
          assert ws[k] == tail[k - 1];
        }
      }
    }
  }

  /** 2500 characters with no sentence break are cut at 0, 800 and 1600. */
  lemma ThreeWindowsFor2500(text: string)
    requires |text| == 2500
    requires forall i :: 0 <= i < |text| ==> !IsBreak(text[i])
    ensures |WindowsFrom(text, 0)| == 3
  {
    WindowsFromStep(text, 0);
    WindowsFromStep(text, 800);
    WindowsFromStep(text, 1600);
    var w0 := WindowAt(text, 0);
    var w1 := WindowAt(text, 800);
    var w2 := WindowAt(text, 1600);
    assert !w0.snapped && !w1.snapped;
    assert WindowsFrom(text, 0) == [w0] + WindowsFrom(text, 800);
    assert WindowsFrom(text, 800) == [w1] + WindowsFrom(text, 1600);
    assert WindowsFrom(text, 1600) == [w2];
  }
}
