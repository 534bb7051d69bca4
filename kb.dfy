// The knowledge-base text pipeline: text normalisation, sliding-window
// chunking with character offsets, padding of embeddings to the storage
// dimension, and tenant-scoped nearest-neighbour search. The embedding model
// and the vector distance are inputs.
module Kb {
  import opened Wrappers
  import opened Text
  import opened Models

  /** Width of the vector column the search compares against. */
  const EmbedDim: nat := 1536

  /** Width of the local sentence-transformers model's output. */
  const ModelDim: nat := 384

  // ---------------------------------------------------------------------
  // Normalisation

  /** `s` with every '\r' that stands directly before a '\n' deleted, one
      character at a time: the meaning of replacing each "\r\n" by "\n". */
  function DropCrBeforeLf(s: string): (r: string)
    ensures |r| <= |s|
    ensures forall c :: c != '\r' ==> multiset(r)[c] == multiset(s)[c]
  {
    if |s| == 0 then []
    else if |s| >= 2 && s[0] == '\r' && s[1] == '\n' then
      assert s == [s[0]] + s[1..];
      DropCrBeforeLf(s[1..])
    else
      assert s == [s[0]] + s[1..];
      [s[0]] + DropCrBeforeLf(s[1..])
  }

  /** `s.replace("\r\n", "\n")`, scanning left to right. */
  function ReplaceCrlf(s: string): (r: string)
    ensures r == DropCrBeforeLf(s)
    ensures '\r' !in s ==> r == s
  {
    if |s| >= 2 && s[0] == '\r' && s[1] == '\n' then "\n" + ReplaceCrlf(s[2..])
    else if |s| == 0 then []
    else [s[0]] + ReplaceCrlf(s[1..])
  }

  /** `s.replace("\r", "\n")` */
  function ReplaceCr(s: string): (r: string)
    ensures |r| == |s| && '\r' !in r
    ensures forall i :: 0 <= i < |s| ==> r[i] == (if s[i] == '\r' then '\n' else s[i])
    ensures '\r' !in s ==> r == s
  {
    seq(|s|, i requires 0 <= i < |s| => if s[i] == '\r' then '\n' else s[i])
  }

  /** Whatever `strip()` keeps occurs in its input. */
  lemma StripKeepsOnlyInputChars(s: string, c: char)
    ensures c in Strip(s) ==> c in s
  {
    var a := StripInfix(s);
    if c in Strip(s) {
      var i :| 0 <= i < |Strip(s)| && Strip(s)[i] == c;
      assert s[a + i] == c;
    }
  }

  /** `normalize_text`: a missing or empty text is "", otherwise line endings
      are unified to "\n" and outer whitespace is stripped. */
  function NormalizeText(text: Option<string>): (r: string)
    ensures text == None || text == Some("") ==> r == ""
    ensures '\r' !in r && Trimmed(r)
    ensures text.Some? && '\r' !in text.value ==> r == Strip(text.value)
  {
    if text == None || text.value == "" then ""
    else
      var unified := ReplaceCr(ReplaceCrlf(text.value));
      StripKeepsOnlyInputChars(unified, '\r');
      Strip(unified)
  }

  /** A non-whitespace character survives `strip()`. */
  lemma StripKeepsContent(s: string, c: char)
    requires c in s && !IsSpace(c)
    ensures c in Strip(s)
  {
    var a := StripInfix(s);
    var k := |Strip(s)|;
    var i :| 0 <= i < |s| && s[i] == c;
    // The cut-off sides are whitespace, so `c` lies in the kept infix.
    assert forall j :: 0 <= j < a ==> s[..a][j] == s[j];
    assert forall j :: a + k <= j < |s| ==> s[a + k..][j - a - k] == s[j];
    assert Strip(s)[i - a] == c;
  }

  /** Unifying "\r\n" keeps every character that is not whitespace. */
  lemma {:induction false} ReplaceCrlfKeepsContent(s: string, c: char)
    requires c in s && !IsSpace(c)
    ensures c in ReplaceCrlf(s)
    decreases |s|
  {
    if |s| >= 2 && s[0] == '\r' && s[1] == '\n' {
      assert s == s[..2] + s[2..];
      ReplaceCrlfKeepsContent(s[2..], c);
    } else if s[0] == c {
    } else {
      assert s == [s[0]] + s[1..];
      ReplaceCrlfKeepsContent(s[1..], c);
    }
  }

  /** Normalising keeps every character of the text that is not
      whitespace: only line endings and outer whitespace change. */
  lemma NormalizeKeepsContent(text: string, c: char)
    requires c in text && !IsSpace(c)
    ensures c in NormalizeText(Some(text))
  {
    ReplaceCrlfKeepsContent(text, c);
    var crlf := ReplaceCrlf(text);
    var i :| 0 <= i < |crlf| && crlf[i] == c;
    assert ReplaceCr(crlf)[i] == c;
    StripKeepsContent(ReplaceCr(crlf), c);
  }

  /** Normalising twice is normalising once. */
  lemma NormalizeIdempotent(text: Option<string>)
    ensures NormalizeText(Some(NormalizeText(text))) == NormalizeText(text)
  {
    var once := NormalizeText(text);
    if once != "" {
      StripTrimmed(once);
    }
  }

  // ---------------------------------------------------------------------
  // Chunking

  /** One `(char_start, char_end, chunk_str)` triple. */
  datatype Piece = Piece(start: int, end: int, text: string)

  /** The overlap actually used: an overlap of at least the window size is
      clamped to `max(0, chunk_size - 1)`. */
  function EffectiveOverlap(chunkSize: int, overlap: int): (r: int)
    ensures overlap < chunkSize ==> r == overlap
    ensures chunkSize >= 1 ==> r < chunkSize
    ensures overlap >= chunkSize ==> r == (if chunkSize >= 1 then chunkSize - 1 else 0)
    ensures overlap >= 0 ==> r >= 0
  {
    if overlap >= chunkSize then (if chunkSize - 1 > 0 then chunkSize - 1 else 0) else overlap
  }

  /** The distance between window starts; at least 1, so the scan advances. */
  function StepSize(chunkSize: int, overlap: int): (r: int)
    ensures r >= 1
    ensures chunkSize >= 1 && overlap >= 0 ==> r <= chunkSize
    ensures 0 <= overlap < chunkSize ==> r == chunkSize - overlap
    ensures overlap >= chunkSize ==> r == 1
  {
    var o := EffectiveOverlap(chunkSize, overlap);
    if chunkSize - o > 1 then chunkSize - o else 1
  }

  function Min(a: int, b: int): int { if a <= b then a else b }

  /** The triple of the window starting at `i`, if it is emitted: the
      window `text[i:end]` with `end = min(n, i + size)` is dropped when it
      strips to "". The scan only visits starts `i >= 0`; a negative `end`
      (a chunk size below 1) counts from the end of the text as Python's
      slice does, and the triple records `end` as computed. */
  function WindowAt(text: string, size: int, i: int): seq<Piece> {
    var end := Min(|text|, i + size);
    var hi := SliceIndex(end, |text|);
    if 0 <= i < hi && HasContent(text[i..hi]) then [Piece(i, end, text[i..hi])] else []
  }

  /** The windows of `text` as a function of their start. */
  function WindowFn(text: string, size: int): int -> seq<Piece> {
    w => WindowAt(text, size, w)
  }

  /** The scan of `chunk_text`'s loop over a text of length `n`: the windows
      starting at `i`, `i + step`, ..., up to and including the first one
      that reaches `n`, each contributing `win(start)`. */
  function Scan(win: int -> seq<Piece>, n: int, size: int, step: int, i: int): seq<Piece>
    requires step >= 1
    decreases n - i
  {
    if i >= n then []
    else if Min(n, i + size) >= n then win(i)
    else win(i) + Scan(win, n, size, step, i + step)
  }

  /** The windows of `text` from `i` on, as `chunk_text`'s loop visits them. */
  function Windows(text: string, size: int, step: int, i: int): seq<Piece>
    requires step >= 1
    decreases |text| - i
  {
    if i >= |text| then []
    else if Min(|text|, i + size) >= |text| then WindowAt(text, size, i)
    else WindowAt(text, size, i) + Windows(text, size, step, i + step)
  }

  /** What `chunk_text` returns. */
  function Chunks(text: string, chunkSize: int, overlap: int): seq<Piece> {
    if |text| == 0 then []
    else Windows(text, chunkSize, StepSize(chunkSize, overlap), 0)
  }

  /** The windows of a text are the scan of its window function. */
  lemma {:induction false} WindowsAreScan(text: string, size: int, step: int, i: int)
    requires step >= 1
    ensures Windows(text, size, step, i) == Scan(WindowFn(text, size), |text|, size, step, i)
    decreases |text| - i
  {
    if i < |text| {
      var win := WindowFn(text, size);
      var here := WindowAt(text, size, i);
      assert win(i) == here;
      if Min(|text|, i + size) < |text| {
        WindowsAreScan(text, size, step, i + step);
        assert Windows(text, size, step, i) == here + Windows(text, size, step, i + step);
        assert Scan(win, |text|, size, step, i) == win(i) + Scan(win, |text|, size, step, i + step);
      } else {
        assert Windows(text, size, step, i) == here;
        assert Scan(win, |text|, size, step, i) == win(i);
      }
    }
  }


  /** `Chunks` as the scan the lemmas below reason about. */
  lemma ChunksAreScan(text: string, chunkSize: int, overlap: int)
    ensures Chunks(text, chunkSize, overlap)
      == if |text| == 0 then [] else Scan(WindowFn(text, chunkSize), |text|, chunkSize, StepSize(chunkSize, overlap), 0)
  {
    WindowsAreScan(text, chunkSize, StepSize(chunkSize, overlap), 0);
  }

  /** `chunk_text`: slides a window of `chunkSize` characters over `text`,
      keeps the windows that are not all whitespace, and stops after the
      window that reaches the end of the text. */
  method ChunkText(text: string, chunkSize: int, overlap: int) returns (out: seq<Piece>)
    ensures out == Chunks(text, chunkSize, overlap)
  {
    var n := |text|;
    if n == 0 {
      return [];
    }
    var step := StepSize(chunkSize, overlap);
    ghost var total := WindowsAfter([], text, chunkSize, step, 0);
    out := [];
    var i := 0;
    while i < n
      invariant WindowsAfter(out, text, chunkSize, step, i) == total
    {
      var start := i;
      var end := Min(n, i + chunkSize);
      // `chunk_str.strip()` is truthy exactly when the chunk has a
      // non-whitespace character (Text.StripNonEmptyIffHasContent).
      var kept := WindowAt(text, chunkSize, start);
      ScanStep(out, kept, text, chunkSize, step, i, total);
      out := out + kept;
      if end >= n {
        break;
      }
      assert Min(|text|, i + chunkSize) < |text|;
      assert WindowsAfter(out, text, chunkSize, step, i + step) == total;
      i := i + step;
    }
    ScanStart(text, chunkSize, step);
  }

  /** The loop's state as a scan with an accumulator: `acc` followed by the
      windows of `text` from `i`. */
  function WindowsAfter(acc: seq<Piece>, text: string, size: int, step: int, i: int): seq<Piece>
    requires step >= 1
    decreases |text| - i
  {
    if i >= |text| then acc
    else if Min(|text|, i + size) >= |text| then acc + WindowAt(text, size, i)
    else WindowsAfter(acc + WindowAt(text, size, i), text, size, step, i + step)
  }

  /** One iteration of the loop moves the window at `i` into the accumulator. */
  lemma ScanStep(acc: seq<Piece>, kept: seq<Piece>, text: string, size: int, step: int, i: int, total: seq<Piece>)
    requires step >= 1 && i < |text|
    requires WindowsAfter(acc, text, size, step, i) == total
    requires kept == WindowAt(text, size, i)
    ensures Min(|text|, i + size) >= |text| ==> acc + kept == total
    ensures Min(|text|, i + size) < |text| ==> WindowsAfter(acc + kept, text, size, step, i + step) == total
  {
  }

  /** The loop starts with nothing accumulated and computes the windows. */
  lemma ScanStart(text: string, size: int, step: int)
    requires step >= 1
    ensures WindowsAfter([], text, size, step, 0) == Windows(text, size, step, 0)
  {
    AccumulatedWindows([], text, size, step, 0);
    assert [] + Windows(text, size, step, 0) == Windows(text, size, step, 0);
  }

  lemma {:induction false} AccumulatedWindows(acc: seq<Piece>, text: string, size: int, step: int, i: int)
    requires step >= 1
    ensures WindowsAfter(acc, text, size, step, i) == acc + Windows(text, size, step, i)
    decreases |text| - i
  {
    if i >= |text| {
      assert acc + [] == acc;
    } else {
      var here := WindowAt(text, size, i);
      if Min(|text|, i + size) < |text| {
        var rest := Windows(text, size, step, i + step);
        AccumulatedWindows(acc + here, text, size, step, i + step);
        assert WindowsAfter(acc, text, size, step, i) == (acc + here) + rest;
        AppendAssoc(acc, here, rest);
        assert Windows(text, size, step, i) == here + rest;
      } else {
        assert WindowsAfter(acc, text, size, step, i) == acc + here;
        assert Windows(text, size, step, i) == here;
      }
    }
  }


  lemma AppendAssoc<T>(a: seq<T>, b: seq<T>, c: seq<T>)
    ensures (a + b) + c == a + (b + c)
  {
  }

  // Facts about the scan that hold for any window function of the right
  // shape; the window function of a text has that shape.

  /** Each start yields at most one triple, and it carries that start. */
  ghost predicate Shaped(win: int -> seq<Piece>) {
    forall w :: |win(w)| <= 1 && (win(w) != [] ==> win(w)[0].start == w)
  }

  lemma WindowFnShaped(text: string, size: int)
    ensures Shaped(WindowFn(text, size))
  {
    forall w ensures |WindowFn(text, size)(w)| <= 1
      && (WindowFn(text, size)(w) != [] ==> WindowFn(text, size)(w)[0].start == w)
    {
      assert WindowFn(text, size)(w) == WindowAt(text, size, w);
    }
  }

  /** A triple that names a non-blank window of `text` of at most `size`
      characters by its offsets. */
  predicate WellFormedPiece(text: string, size: int, p: Piece) {
    && 0 <= p.start < p.end <= |text|
    && p.end - p.start <= size
    && p.text == text[p.start..p.end]
    && !IsBlank(p.text)
  }

  predicate AllWellFormed(text: string, size: int, ps: seq<Piece>) {
    forall k :: 0 <= k < |ps| ==> WellFormedPiece(text, size, ps[k])
  }

  /** Every window starting inside the text yields only well-formed triples. */
  predicate WellFormedWindows(win: int -> seq<Piece>, text: string, size: int) {
    forall w :: 0 <= w < |text| ==> AllWellFormed(text, size, win(w))
  }

  /** The window at `w`, when emitted, is a well-formed triple. */
  lemma WindowAtWellFormed(text: string, size: int, w: int)
    requires size >= 1 && 0 <= w < |text|
    ensures AllWellFormed(text, size, WindowAt(text, size, w))
  {
    HasContentIffNotBlank(text[w..Min(|text|, w + size)]);
  }

  lemma WindowFnWellFormed(text: string, size: int)
    requires size >= 1
    ensures WellFormedWindows(WindowFn(text, size), text, size)
  {
    forall w | 0 <= w < |text| ensures AllWellFormed(text, size, WindowFn(text, size)(w)) {
      WindowAtWellFormed(text, size, w);
      assert WindowFn(text, size)(w) == WindowAt(text, size, w);
    }
  }

  /** The window at `w` is emitted exactly when it is not all whitespace. */
  lemma WindowEmittedIffNotBlank(text: string, size: int, w: int)
    requires size >= 1 && 0 <= w < |text|
    ensures WindowFn(text, size)(w) != [] <==> !IsBlank(text[w..Min(|text|, w + size)])
  {
    HasContentIffNotBlank(text[w..Min(|text|, w + size)]);
    assert WindowFn(text, size)(w) == WindowAt(text, size, w);
  }

  /** `w` is one of `i`, `i + step`, `i + 2 * step`, ... */
  predicate OnGrid(i: int, step: int, w: int)
    requires step >= 1
    decreases w - i
  {
    i <= w && (w == i || OnGrid(i + step, step, w))
  }

  /** The grid from `i` is exactly the offsets from `i` that are multiples
      of the step. */
  lemma {:induction false} OnGridIsMultiple(i: int, step: int, w: int)
    requires step >= 1
    ensures OnGrid(i, step, w) <==> i <= w && (w - i) % step == 0
    decreases w - i
  {
    if i < w {
      OnGridIsMultiple(i + step, step, w);
      ModShift(w - (i + step), step);
    }
  }

  /** Adding the divisor leaves the remainder unchanged. */
  lemma ModShift(x: int, step: int)
    requires step >= 1
    ensures (x + step) % step == x % step
  {
    var q, r := x / step, x % step;
    assert x + step == (q + 1) * step + r;
    ModUnique(x + step, q + 1, r, step);
  }

  /** A quotient and remainder in range are the ones `/` and `%` give. */
  lemma ModUnique(y: int, a: int, b: int, step: int)
    requires step >= 1 && 0 <= b < step && y == a * step + b
    ensures y % step == b
  {
    var q, r := y / step, y % step;
    assert (a - q) * step == r - b;
    if a - q > 0 {
      assert (a - q) * step >= step by { MulAtLeast(a - q, step); }
    } else if a - q < 0 {
      assert (q - a) * step >= step by { MulAtLeast(q - a, step); }
    }
  }

  lemma MulAtLeast(d: int, step: int)
    requires d >= 1 && step >= 1
    ensures d * step >= step
  {
    assert d * step == (d - 1) * step + step;
  }


  /** Every piece of `ps` starts on the grid `i`, `i + step`, ... */
  predicate OnGridFrom(ps: seq<Piece>, i: int, step: int)
    requires step >= 1
  {
    forall k :: 0 <= k < |ps| ==> OnGrid(i, step, ps[k].start)
  }

  lemma {:induction false} ScanOnGrid(win: int -> seq<Piece>, n: int, size: int, step: int, i: int)
    requires step >= 1 && Shaped(win)
    ensures OnGridFrom(Scan(win, n, size, step, i), i, step)
    decreases n - i
  {
    if i < n && Min(n, i + size) < n {
      ScanOnGrid(win, n, size, step, i + step);
      var here: seq<Piece>, rest: seq<Piece> := win(i), Scan(win, n, size, step, i + step);
      forall k | 0 <= k < |here + rest| ensures OnGrid(i, step, (here + rest)[k].start) {
        if k >= |here| {
          assert (here + rest)[k] == rest[k - |here|];
        }
      }
    }
  }

  lemma {:induction false} ScanWellFormed(win: int -> seq<Piece>, text: string, size: int, step: int, i: int)
    requires step >= 1 && i >= 0 && WellFormedWindows(win, text, size)
    ensures AllWellFormed(text, size, Scan(win, |text|, size, step, i))
    decreases |text| - i
  {
    if i < |text| && Min(|text|, i + size) < |text| {
      ScanWellFormed(win, text, size, step, i + step);
      var here: seq<Piece>, rest: seq<Piece> := win(i), Scan(win, |text|, size, step, i + step);
      forall k | 0 <= k < |here + rest| ensures WellFormedPiece(text, size, (here + rest)[k]) {
        if k >= |here| {
          assert (here + rest)[k] == rest[k - |here|];
        }
      }
    }
  }

  /** Starts strictly increase along `ps`. */
  predicate Increasing(ps: seq<Piece>) {
    forall j, k :: 0 <= j < k < |ps| ==> ps[j].start < ps[k].start
  }

  lemma {:induction false} ScanIncreasing(win: int -> seq<Piece>, n: int, size: int, step: int, i: int)
    requires step >= 1 && Shaped(win)
    ensures Increasing(Scan(win, n, size, step, i))
    decreases n - i
  {
    if i < n && Min(n, i + size) < n {
      ScanIncreasing(win, n, size, step, i + step);
      ScanOnGrid(win, n, size, step, i + step);
      var here: seq<Piece>, rest: seq<Piece> := win(i), Scan(win, n, size, step, i + step);
      var all := here + rest;
      forall j, k | 0 <= j < k < |all| ensures all[j].start < all[k].start {
        assert all[k] == rest[k - |here|];
        assert OnGrid(i + step, step, all[k].start);
        if j >= |here| {
          assert all[j] == rest[j - |here|];
        }
      }
    }
  }

  /** Some piece of `ps` starts at `w`. */
  predicate StartsAt(ps: seq<Piece>, w: int) {
    exists k :: 0 <= k < |ps| && ps[k].start == w
  }

  /** The window starting at `w` is visited by a scan from `i`: it lies on
      the step grid and no earlier window reached the end of the text. */
  predicate Visited(n: int, size: int, step: int, i: int, w: int) {
    step >= 1 && w < n && OnGrid(i, step, w) && (w == i || w - step + size < n)
  }

  lemma {:induction false} ScanEmits(win: int -> seq<Piece>, n: int, size: int, step: int, i: int, w: int)
    requires Shaped(win) && Visited(n, size, step, i, w)
    ensures StartsAt(Scan(win, n, size, step, i), w) <==> win(w) != []
    decreases n - i
  {
    var all := Scan(win, n, size, step, i);
    if w == i {
      if win(i) != [] {
        assert all[0] == win(i)[0];
      }
      if Min(n, i + size) < n {
        ScanOnGrid(win, n, size, step, i + step);
        var rest := Scan(win, n, size, step, i + step);
        forall k | |win(i)| <= k < |all| ensures all[k].start > i {
          assert all[k] == rest[k - |win(i)|];
          assert OnGrid(i + step, step, all[k].start);
        }
      }
    } else {
      assert OnGrid(i + step, step, w);
      ScanEmits(win, n, size, step, i + step, w);
      var here: seq<Piece>, rest: seq<Piece> := win(i), Scan(win, n, size, step, i + step);
      if StartsAt(all, w) {
        var k :| 0 <= k < |all| && all[k].start == w;
        assert rest[k - |here|] == all[k];
      }
      if StartsAt(rest, w) {
        var k :| 0 <= k < |rest| && rest[k].start == w;
        assert all[k + |here|] == rest[k];
      }
    }
  }

  /** The last piece of `ps` ends at `n`. */
  predicate EndsAtLength(ps: seq<Piece>, n: int) {
    ps != [] && ps[|ps| - 1].end == n
  }

  lemma {:induction false} ScanEndsAtLength(win: int -> seq<Piece>, n: int, size: int, step: int, i: int)
    requires 1 <= step <= size && i < n
    requires 0 <= i
    requires forall w :: 0 <= w < n <= Min(n, w + size) ==> EndsAtLength(win(w), n)
    ensures EndsAtLength(Scan(win, n, size, step, i), n)
    decreases n - i
  {
    if Min(n, i + size) < n {
      ScanEndsAtLength(win, n, size, step, i + step);
      var here: seq<Piece>, rest: seq<Piece> := win(i), Scan(win, n, size, step, i + step);
      assert (here + rest)[|here + rest| - 1] == rest[|rest| - 1];
    }
  }

  /** The window reaching the end of a text whose last character is not
      whitespace is emitted and ends at the text's length. */
  lemma FinalWindowEmitted(text: string, size: int, w: int)
    requires 0 <= w < |text| <= Min(|text|, w + size) && !IsSpace(text[|text| - 1])
    ensures EndsAtLength(WindowFn(text, size)(w), |text|)
  {
    assert WindowFn(text, size)(w) == WindowAt(text, size, w);
    var chunk := text[w..Min(|text|, w + size)];
    assert chunk == text[w..];
    assert !IsBlank(chunk) by {
      assert chunk[|chunk| - 1] == text[|text| - 1];
    }
    HasContentIffNotBlank(chunk);
  }

  // The properties of `chunk_text`.

  /** Every triple satisfies `0 <= start < end <= len(text)`, spans at most
      `chunk_size` characters, carries exactly `text[start:end]` and is not
      blank. */
  lemma ChunksWellFormed(text: string, chunkSize: int, overlap: int)
    requires chunkSize >= 1
    ensures AllWellFormed(text, chunkSize, Chunks(text, chunkSize, overlap))
  {
    ChunksAreScan(text, chunkSize, overlap);
    if |text| > 0 {
      var win := WindowFn(text, chunkSize);
      WindowFnWellFormed(text, chunkSize);
      ScanWellFormed(win, text, chunkSize, StepSize(chunkSize, overlap), 0);
    }
  }

  /** Every triple starts at a multiple of the step. */
  lemma ChunksOnStepGrid(text: string, chunkSize: int, overlap: int)
    ensures forall k :: 0 <= k < |Chunks(text, chunkSize, overlap)| ==>
      Chunks(text, chunkSize, overlap)[k].start % StepSize(chunkSize, overlap) == 0
  {
    ChunksAreScan(text, chunkSize, overlap);
    if |text| > 0 {
      var step := StepSize(chunkSize, overlap);
      var win := WindowFn(text, chunkSize);
      var C := Scan(win, |text|, chunkSize, step, 0);
      WindowFnShaped(text, chunkSize);
      ScanOnGrid(win, |text|, chunkSize, step, 0);
      forall k | 0 <= k < |C| ensures C[k].start % step == 0 {
        OnGridIsMultiple(0, step, C[k].start);
      }
    }
  }


  /** The starts of the triples are strictly increasing. */
  lemma ChunksIncreasing(text: string, chunkSize: int, overlap: int)
    ensures Increasing(Chunks(text, chunkSize, overlap))
  {
    ChunksAreScan(text, chunkSize, overlap);
    if |text| > 0 {
      WindowFnShaped(text, chunkSize);
      ScanIncreasing(WindowFn(text, chunkSize), |text|, chunkSize, StepSize(chunkSize, overlap), 0);
    }
  }

  /** Every visited window is emitted exactly when it is not all whitespace. */
  lemma ChunkEmittedIffNotBlank(text: string, chunkSize: int, overlap: int, w: int)
    requires chunkSize >= 1
    requires Visited(|text|, chunkSize, StepSize(chunkSize, overlap), 0, w)
    ensures StartsAt(Chunks(text, chunkSize, overlap), w) <==> !IsBlank(text[w..Min(|text|, w + chunkSize)])
  {
    ChunksAreScan(text, chunkSize, overlap);
    WindowFnShaped(text, chunkSize);
    ScanEmits(WindowFn(text, chunkSize), |text|, chunkSize, StepSize(chunkSize, overlap), 0, w);
    assert OnGrid(0, StepSize(chunkSize, overlap), w);
    WindowEmittedIffNotBlank(text, chunkSize, w);
  }

  /** With a non-negative overlap, a text that does not end in whitespace
      has its last chunk ending at the text's length. */
  lemma LastChunkEndsAtLength(text: string, chunkSize: int, overlap: int)
    requires chunkSize >= 1 && overlap >= 0
    requires |text| > 0 && !IsSpace(text[|text| - 1])
    ensures EndsAtLength(Chunks(text, chunkSize, overlap), |text|)
  {
    ChunksAreScan(text, chunkSize, overlap);
    forall w | 0 <= w < |text| <= Min(|text|, w + chunkSize)
      ensures EndsAtLength(WindowFn(text, chunkSize)(w), |text|)
    {
      FinalWindowEmitted(text, chunkSize, w);
    }
    ScanEndsAtLength(WindowFn(text, chunkSize), |text|, chunkSize, StepSize(chunkSize, overlap), 0);
  }

  /** With a chunk size below 1, a window whose (negative) end does not
      reach back before its start is empty. */
  lemma {:induction false} NonPositiveSizeTail(text: string, size: int, step: int, i: int)
    requires size <= 0 && step >= 1 && i + size >= 0
    ensures Windows(text, size, step, i) == []
    decreases |text| - i
  {
    if i < |text| {
      assert WindowAt(text, size, i) == [];
      NonPositiveSizeTail(text, size, step, i + step);
    }
  }

  /** A chunk size below 1 never reaches the end of the text, and a
      negative window end counts from the end as in Python: windows of size
      -2 over "abcdefgh" are "abcdef" and "bcdefg", the rest are empty. */
  lemma NegativeSizeCountsFromEnd(text: string)
    requires text == "abcdefgh"
    ensures Chunks(text, -2, 0) == [Piece(0, -2, "abcdef"), Piece(1, -1, "bcdefg")]
  {
    SizeMinusTwoChunks(text);
    assert text[0..6] == "abcdef" && text[1..7] == "bcdefg";
  }

  /** Chunks of size -2 over eight letters: the first two windows, ending
      two and one characters before the end. */
  lemma SizeMinusTwoChunks(text: string)
    requires |text| == 8 && 'a' <= text[0] <= 'z' && 'a' <= text[1] <= 'z'
    ensures Chunks(text, -2, 0) == [Piece(0, -2, text[0..6]), Piece(1, -1, text[1..7])]
  {
    assert StepSize(-2, 0) == 1;
    SampleWindow(text, 0, text[0]);
    SampleWindow(text, 1, text[1]);
    NonPositiveSizeTail(text, -2, 1, 2);
    assert Windows(text, -2, 1, 1) == WindowAt(text, -2, 1);
    assert Windows(text, -2, 1, 0) == WindowAt(text, -2, 0) + WindowAt(text, -2, 1);
  }

  /** Window `i` of size -2 over a text of 8 letters ends at `i - 2`,
      counted from the end, and is kept since it starts with a letter. */
  lemma SampleWindow(text: string, i: int, c: char)
    requires |text| == 8 && 0 <= i <= 1 && text[i] == c && 'a' <= c <= 'z'
    ensures WindowAt(text, -2, i) == [Piece(i, i - 2, text[i..i + 6])]
  {
    PrintableNotSpace(c);
    var w := text[i..i + 6];
    assert w[0] == c;
    assert HasContent(w);
  }

  // ---------------------------------------------------------------------
  // Embedding width

  /** `_pad_to_db_dim`: exactly `dim` entries, the input's prefix followed
      by zeros when the input was shorter. */
  function PadToDbDim(vec: seq<real>, dim: nat): (r: seq<real>)
    ensures |r| == dim
    ensures forall i :: 0 <= i < |vec| && i < dim ==> r[i] == vec[i]
    ensures forall i :: |vec| <= i < dim ==> r[i] == 0.0
  {
    if |vec| == dim then vec
    else if |vec| > dim then vec[..dim]
    else vec + seq(dim - |vec|, _ => 0.0)
  }

  // ---------------------------------------------------------------------
  // Search

  /** One search hit as the API returns it; `score` is the distance. */
  datatype KbResult = KbResult(
    documentId: nat,
    documentTitle: Option<string>,
    chunkId: nat,
    chunkIndex: nat,
    text: string,
    score: real)

  /** The chunk rows the query may return: the organisation's chunks that
      have an embedding, in storage order. */
  function Candidates(chunks: seq<DocumentChunk>, org: nat): (r: seq<DocumentChunk>)
    ensures forall c :: c in r ==> c.org == org && c.embedding.Some?
    ensures forall c :: c in chunks && c.org == org && c.embedding.Some? ==> c in r
    ensures multiset(r) <= multiset(chunks)
  {
    if chunks == [] then []
    else
      var rest := Candidates(chunks[1..], org);
      assert chunks == [chunks[0]] + chunks[1..];
      if chunks[0].org == org && chunks[0].embedding.Some? then [chunks[0]] + rest else rest
  }

  /** Distance of a candidate chunk from the query vector. */
  function Distance(c: DocumentChunk, query: seq<real>, distance: (seq<real>, seq<real>) -> real): real {
    match c.embedding
    case Some(e) => distance(e, query)
    case None => 0.0
  }

  predicate SortedByDistance(s: seq<DocumentChunk>, query: seq<real>, distance: (seq<real>, seq<real>) -> real) {
    forall i, j :: 0 <= i < j < |s| ==> Distance(s[i], query, distance) <= Distance(s[j], query, distance)
  }

  function InsertByDistance(c: DocumentChunk, s: seq<DocumentChunk>, query: seq<real>,
                            distance: (seq<real>, seq<real>) -> real): (r: seq<DocumentChunk>)
    requires SortedByDistance(s, query, distance)
    ensures |r| == |s| + 1
    ensures r[0] == c || (s != [] && r[0] == s[0])
    ensures SortedByDistance(r, query, distance)
  {
    if s == [] then [c]
    else if Distance(c, query, distance) <= Distance(s[0], query, distance) then [c] + s
    else
      var rest := InsertByDistance(c, s[1..], query, distance);
      assert s == [s[0]] + s[1..];
      var r := [s[0]] + rest;
      assert Distance(s[0], query, distance) <= Distance(rest[0], query, distance);
      assert forall j :: 0 < j < |r| ==> r[j] == rest[j - 1];
      r
  }

  /** Insertion adds exactly `c` to the multiset of rows. */
  lemma {:induction false} InsertByDistancePermutes(c: DocumentChunk, s: seq<DocumentChunk>, query: seq<real>,
                                                   distance: (seq<real>, seq<real>) -> real)
    requires SortedByDistance(s, query, distance)
    ensures multiset(InsertByDistance(c, s, query, distance)) == multiset(s) + multiset{c}
  {
    if s != [] && Distance(c, query, distance) > Distance(s[0], query, distance) {
      InsertByDistancePermutes(c, s[1..], query, distance);
      assert s == [s[0]] + s[1..];
    }
  }

  /** `ORDER BY distance`: a permutation in non-decreasing distance. */
  function OrderByDistance(s: seq<DocumentChunk>, query: seq<real>,
                           distance: (seq<real>, seq<real>) -> real): (r: seq<DocumentChunk>)
    ensures multiset(r) == multiset(s)
    ensures SortedByDistance(r, query, distance)
  {
    if s == [] then []
    else
      var rest := OrderByDistance(s[1..], query, distance);
      InsertByDistancePermutes(s[0], rest, query, distance);
      assert s == [s[0]] + s[1..];
      InsertByDistance(s[0], rest, query, distance)
  }

  /** The API rendering of one chunk row. */
  function ToResult(c: DocumentChunk, documents: map<nat, Document>, score: real): KbResult
    requires c.document in documents
  {
    KbResult(c.document, if c.document != 0 then Some(documents[c.document].title) else None,
             c.id, c.chunkIndex, c.text, score)
  }

  /** Every chunk row points at an existing document (the foreign key). */
  predicate ChunkDocumentsExist(chunks: seq<DocumentChunk>, documents: map<nat, Document>) {
    forall c :: c in chunks ==> c.document in documents
  }

  /** `qs[:k]`: the first `k` rows, or all of them. */
  function TakeAtMost<T>(s: seq<T>, k: nat): (r: seq<T>)
    ensures |r| == Min(k, |s|)
    ensures forall i :: 0 <= i < |r| ==> r[i] == s[i]
  {
    if k < |s| then s[..k] else s
  }

  /** The result dictionaries built, in order, from the rows `qs`. */
  function Render(qs: seq<DocumentChunk>, documents: map<nat, Document>, qv: seq<real>,
                  distance: (seq<real>, seq<real>) -> real): (r: seq<KbResult>)
    requires ChunkDocumentsExist(qs, documents)
    ensures |r| == |qs|
    ensures forall i :: 0 <= i < |qs| ==> r[i] == ToResult(qs[i], documents, Distance(qs[i], qv, distance))
  {
    if qs == [] then []
    else
      var init := qs[..|qs| - 1];
      assert forall c :: c in init ==> c in qs;
      Render(init, documents, qv, distance) + [ToResult(qs[|qs| - 1], documents, Distance(qs[|qs| - 1], qv, distance))]
  }

  /** Rendering one more row appends its dictionary. */
  lemma RenderStep(qs: seq<DocumentChunk>, i: nat, documents: map<nat, Document>, qv: seq<real>,
                   distance: (seq<real>, seq<real>) -> real)
    requires ChunkDocumentsExist(qs, documents) && i < |qs|
    ensures ChunkDocumentsExist(qs[..i], documents) && ChunkDocumentsExist(qs[..i + 1], documents)
    ensures Render(qs[..i + 1], documents, qv, distance)
      == Render(qs[..i], documents, qv, distance) + [ToResult(qs[i], documents, Distance(qs[i], qv, distance))]
  {
    assert forall c :: c in qs[..i + 1] ==> c in qs;
    assert qs[..i + 1][..i] == qs[..i];
  }

  /** The query vector: the normalised query embedded and padded to the
      column width. */
  function QueryVector(q: string, encode: string -> seq<real>): seq<real> {
    PadToDbDim(encode(q), EmbedDim)
  }

  /** The rows the search reads: the organisation's embedded chunks nearest
      to the query vector first, at most `k` of them. */
  function Nearest(chunks: seq<DocumentChunk>, org: nat, qv: seq<real>, k: nat,
                   distance: (seq<real>, seq<real>) -> real): seq<DocumentChunk>
  {
    TakeAtMost(OrderByDistance(Candidates(chunks, org), qv, distance), k)
  }

  /** What `search_kb_chunks_for_query` returns. */
  function Search(chunks: seq<DocumentChunk>, documents: map<nat, Document>, org: nat, query: string, k: nat,
                  encode: string -> seq<real>, distance: (seq<real>, seq<real>) -> real): seq<KbResult>
    requires ChunkDocumentsExist(chunks, documents)
  {
    var q := NormalizeText(Some(query));
    if q == "" then []
    else
      var qv := QueryVector(q, encode);
      var qs := Nearest(chunks, org, qv, k, distance);
      NearestFromCandidates(chunks, org, qv, k, distance);
      Render(qs, documents, qv, distance)
  }

  /** Every row the search reads is an embedded chunk of the organisation. */
  lemma NearestFromCandidates(chunks: seq<DocumentChunk>, org: nat, qv: seq<real>, k: nat,
                              distance: (seq<real>, seq<real>) -> real)
    ensures forall c :: c in Nearest(chunks, org, qv, k, distance) ==>
      c in chunks && c.org == org && c.embedding.Some?
  {
    var cands := Candidates(chunks, org);
    var ranked := OrderByDistance(cands, qv, distance);
    forall c | c in Nearest(chunks, org, qv, k, distance)
      ensures c in chunks && c.org == org && c.embedding.Some?
    {
      var i :| 0 <= i < |Nearest(chunks, org, qv, k, distance)| && Nearest(chunks, org, qv, k, distance)[i] == c;
      assert c == ranked[i];
      assert c in multiset(ranked);
      assert c in multiset(cands);
      assert c in multiset(chunks);
    }
  }

  /** `search_kb_chunks_for_query`: a query that normalises to "" finds
      nothing; otherwise the query is embedded once, padded to the column
      width, and the `k` nearest embedded chunks of the organisation are
      rendered in non-decreasing distance. `encode` is the embedding model
      and `distance` the vector distance. */
  method SearchKbChunksForQuery(
    chunks: seq<DocumentChunk>, documents: map<nat, Document>, org: nat, query: string, k: nat,
    encode: string -> seq<real>, distance: (seq<real>, seq<real>) -> real)
    returns (results: seq<KbResult>)
    requires ChunkDocumentsExist(chunks, documents)
    ensures results == Search(chunks, documents, org, query, k, encode, distance)
  {
    var q := NormalizeText(Some(query));
    if q == "" {
      return [];
    }
    var qv := PadToDbDim(encode(q), EmbedDim);
    var ranked := OrderByDistance(Candidates(chunks, org), qv, distance);
    var qs := if k < |ranked| then ranked[..k] else ranked;
    NearestFromCandidates(chunks, org, qv, k, distance);
    assert qs == Nearest(chunks, org, qv, k, distance);
    results := RenderRows(qs, documents, qv, distance);
  }

  /** The result loop of `search_kb_chunks_for_query`: one dictionary per
      row, in the rows' order. */
  method RenderRows(qs: seq<DocumentChunk>, documents: map<nat, Document>, qv: seq<real>,
                    distance: (seq<real>, seq<real>) -> real)
    returns (results: seq<KbResult>)
    requires ChunkDocumentsExist(qs, documents)
    ensures results == Render(qs, documents, qv, distance)
  {
    results := [];
    var i := 0;
    while i < |qs|
      invariant 0 <= i <= |qs|
      invariant results == Render(qs[..i], documents, qv, distance)
    {
      var c := qs[i];
      RenderStep(qs, i, documents, qv, distance);
      results := results + [ToResult(c, documents, Distance(c, qv, distance))];
      i := i + 1;
    }
    assert qs[..i] == qs;
  }


  /** The search returns at most `k` results, and exactly `min(k, n)` for a
      non-blank query, `n` being the number of embedded chunks of the
      organisation. */
  lemma SearchCount(chunks: seq<DocumentChunk>, documents: map<nat, Document>, org: nat, query: string, k: nat,
                    encode: string -> seq<real>, distance: (seq<real>, seq<real>) -> real)
    requires ChunkDocumentsExist(chunks, documents)
    ensures |Search(chunks, documents, org, query, k, encode, distance)| <= k
    ensures NormalizeText(Some(query)) == "" ==> Search(chunks, documents, org, query, k, encode, distance) == []
    ensures NormalizeText(Some(query)) != "" ==>
      |Search(chunks, documents, org, query, k, encode, distance)| == Min(k, |Candidates(chunks, org)|)
  {
    var q := NormalizeText(Some(query));
    if q != "" {
      var qv := QueryVector(q, encode);
      var cands := Candidates(chunks, org);
      var ranked := OrderByDistance(cands, qv, distance);
      assert |ranked| == |multiset(ranked)| == |multiset(cands)| == |cands|;
      var qs := Nearest(chunks, org, qv, k, distance);
      assert |qs| == Min(k, |cands|);
      NearestFromCandidates(chunks, org, qv, k, distance);
      assert Search(chunks, documents, org, query, k, encode, distance) == Render(qs, documents, qv, distance);
    }
  }

  /** Every result is a chunk of the searching organisation that has an
      embedding, rendered with its own document. */
  lemma SearchStaysInOrg(chunks: seq<DocumentChunk>, documents: map<nat, Document>, org: nat, query: string, k: nat,
                         encode: string -> seq<real>, distance: (seq<real>, seq<real>) -> real)
    requires ChunkDocumentsExist(chunks, documents)
    ensures forall r :: r in Search(chunks, documents, org, query, k, encode, distance) ==>
      exists c :: c in chunks && c.org == org && c.embedding.Some?
                && c.id == r.chunkId && c.document == r.documentId && c.text == r.text
  {
    var q := NormalizeText(Some(query));
    if q != "" {
      var qv := QueryVector(q, encode);
      var qs := Nearest(chunks, org, qv, k, distance);
      NearestFromCandidates(chunks, org, qv, k, distance);
      var rs := Search(chunks, documents, org, query, k, encode, distance);
      forall r | r in rs
        ensures exists c :: c in chunks && c.org == org && c.embedding.Some?
                  && c.id == r.chunkId && c.document == r.documentId && c.text == r.text
      {
        var i :| 0 <= i < |rs| && rs[i] == r;
        assert qs[i] in qs;
      }
    }
  }

  /** Results come nearest first: scores never decrease. */
  lemma SearchSortedByScore(chunks: seq<DocumentChunk>, documents: map<nat, Document>, org: nat, query: string, k: nat,
                            encode: string -> seq<real>, distance: (seq<real>, seq<real>) -> real)
    requires ChunkDocumentsExist(chunks, documents)
    ensures forall i, j :: 0 <= i < j < |Search(chunks, documents, org, query, k, encode, distance)| ==>
      Search(chunks, documents, org, query, k, encode, distance)[i].score
        <= Search(chunks, documents, org, query, k, encode, distance)[j].score
  {
    var q := NormalizeText(Some(query));
    if q != "" {
      var qv := QueryVector(q, encode);
      var ranked := OrderByDistance(Candidates(chunks, org), qv, distance);
      var qs := Nearest(chunks, org, qv, k, distance);
      var rs := Search(chunks, documents, org, query, k, encode, distance);
      forall i, j | 0 <= i < j < |rs| ensures rs[i].score <= rs[j].score {
        assert qs[i] == ranked[i] && qs[j] == ranked[j];
      }
    }
  }
}
