/**
 Ingestion's text preparation: the page texts of a PDF joined into one string,
 and the token windows that string is cut into before embedding. The PDF reader
 and the tokenizer are inputs: a PDF is the list of what each page's text
 extraction returned, and the tokenizer is a pair of functions.
 */
module Ingest {
  import opened Base
  import opened Text

  type Token = int

  const NoTextMessage: string := "No text extracted from PDF"

  /** Python's `ValueError` message for `range` with a zero step. */
  const ZeroStepMessage: string := "range() arg 3 must not be zero"

  /** The defaults `chunk_text` is called with during ingestion. */
  const DefaultChunkSize: int := 500
  const DefaultOverlap: int := 100

  // ---------------------------------------------------------------------------
  // read_pdf
  // ---------------------------------------------------------------------------

  /** `if page_text:` — an extraction that returned nothing or the empty string is skipped. */
  predicate HasText(page: Option<string>) {
    page.Some? && page.value != ""
  }

  /** A page that contributes no visible text: nothing extracted, or whitespace only. */
  predicate BlankPage(page: Option<string>) {
    page.None? || AllPySpace(page.value)
  }

  /** Every page's extracted text run together in page order, a page that returned nothing counting as "". */
  function PageText(pages: seq<Option<string>>): string {
    if pages == [] then ""
    else
      var p := pages[|pages| - 1];
      PageText(pages[..|pages| - 1]) + (if p.Some? then p.value else "")
  }

  /**
   The texts of the pages that returned any, in page order: each is some page's
   text, every page with text contributes, and together they spell out all the
   text extracted.
   */
  function Extracted(pages: seq<Option<string>>): (xs: seq<string>)
    ensures |xs| <= |pages|
    ensures forall k :: 0 <= k < |xs| ==> xs[k] != ""
    ensures forall k :: 0 <= k < |xs| ==> Some(xs[k]) in pages
    ensures forall i :: 0 <= i < |pages| && HasText(pages[i]) ==> pages[i].value in xs
    ensures Concat(xs) == PageText(pages)
  {
    if pages == [] then []
    else
      var front := pages[..|pages| - 1];
      var init := Extracted(front);
      var p := pages[|pages| - 1];
      assert pages == front + [p];
      if HasText(p) then
        ConcatSnoc(init, p.value);
        init + [p.value]
      else
        init
  }

  /** Both halves of a concatenation are whitespace exactly when the whole is. */
  lemma AllPySpaceAppend(a: string, b: string)
    ensures AllPySpace(a + b) <==> AllPySpace(a) && AllPySpace(b)
  {
    if AllPySpace(a + b) {
      forall i | 0 <= i < |a| ensures IsPySpace(a[i]) {
        assert (a + b)[i] == a[i];
      }
      forall i | 0 <= i < |b| ensures IsPySpace(b[i]) {
        assert (a + b)[|a| + i] == b[i];
      }
    }
    if AllPySpace(a) && AllPySpace(b) {
      forall i | 0 <= i < |a + b| ensures IsPySpace((a + b)[i]) {
        if i >= |a| { assert (a + b)[i] == b[i - |a|]; }
      }
    }
  }

  /** What `read_pdf` has built after the first `i` pages. */
  predicate ReadSoFar(pages: seq<Option<string>>, i: int, text: string) {
    && 0 <= i <= |pages|
    && (Extracted(pages[..i]) == [] ==> text == "")
    && (Extracted(pages[..i]) != [] ==> text == Join("\n", Extracted(pages[..i])) + "\n")
    && (AllPySpace(text) <==> forall k :: 0 <= k < i ==> BlankPage(pages[k]))
  }

  /** The pages with text among the first `i + 1`: those among the first `i`, then page `i` if it has text. */
  lemma ExtractedStep(pages: seq<Option<string>>, i: int)
    requires 0 <= i < |pages|
    ensures Extracted(pages[..i + 1])
      == if HasText(pages[i]) then Extracted(pages[..i]) + [pages[i].value] else Extracted(pages[..i])
  {
    assert pages[..i + 1][..i] == pages[..i];
    assert pages[..i + 1][i] == pages[i];
  }

  /** Appending a page's text and its newline keeps the result whitespace only exactly when the page is. */
  lemma SpaceStep(text: string, page: string)
    ensures AllPySpace(text + page + "\n") <==> AllPySpace(text) && AllPySpace(page)
  {
    AllPySpaceAppend(text, page + "\n");
    AllPySpaceAppend(page, "\n");
    assert text + page + "\n" == text + (page + "\n");
  }

  /** The joined text grows by the new page's text and its newline. */
  lemma JoinStep(xs: seq<string>, text: string, page: string)
    requires xs == [] ==> text == ""
    requires xs != [] ==> text == Join("\n", xs) + "\n"
    ensures text + page + "\n" == Join("\n", xs + [page]) + "\n"
  {
    if xs != [] {
      JoinSnoc("\n", xs, page);
    } else {
      assert xs + [page] == [page];
      assert Join("\n", [page]) == page;
    }
  }

  /** One more page: its text and a newline are appended when it has any. */
  lemma ReadStep(pages: seq<Option<string>>, i: int, text: string)
    requires ReadSoFar(pages, i, text) && i < |pages|
    ensures ReadSoFar(pages, i + 1, if HasText(pages[i]) then text + pages[i].value + "\n" else text)
  {
    var page := pages[i];
    ExtractedStep(pages, i);
    var xs := Extracted(pages[..i]);
    assert (forall k :: 0 <= k < i + 1 ==> BlankPage(pages[k]))
      <==> (forall k :: 0 <= k < i ==> BlankPage(pages[k])) && BlankPage(page);
    if HasText(page) {
      SpaceStep(text, page.value);
      JoinStep(xs, text, page.value);
    } else {
      assert AllPySpace(if page.Some? then page.value else "");
    }
  }

  /**
   `read_pdf`: every page with text, each followed by a newline. The result is the
   page texts joined by newlines with a final newline, and it is an error exactly
   when every page is empty or whitespace only.
   */
  method ReadPdf(pages: seq<Option<string>>) returns (r: Result<string>)
    ensures r.Err? <==> forall i :: 0 <= i < |pages| ==> BlankPage(pages[i])
    ensures r.Err? ==> r.message == NoTextMessage
    ensures r.Ok? ==> Extracted(pages) != [] && r.value == Join("\n", Extracted(pages)) + "\n"
  {
    var text := "";
    var i := 0;
    while i < |pages|
      invariant ReadSoFar(pages, i, text)
    {
      ReadStep(pages, i, text);
      var page := pages[i];
      if HasText(page) {
        text := text + page.value + "\n";
      }
      i := i + 1;
    }
    assert pages[..i] == pages;
    if Strip(text) == "" {
      return Err(NoTextMessage);
    }
    return Ok(text);
  }

  // ---------------------------------------------------------------------------
  // chunk_text
  // ---------------------------------------------------------------------------

  /** A Python slice bound: negative counts from the end, then clamped to `0..n`. */
  function SliceBound(x: int, n: nat): (r: nat)
    ensures r <= n
    ensures 0 <= x <= n ==> r == x
    ensures x > n ==> r == n
  {
    if x < 0 then (if x + n < 0 then 0 else x + n)
    else if x > n then n
    else x
  }

  /** Python's `s[a:b]`. */
  function PySlice(s: seq<Token>, a: int, b: int): (r: seq<Token>)
    ensures 0 <= a <= b ==> r == s[Min(a, |s|)..Min(b, |s|)]
  {
    var lo := SliceBound(a, |s|);
    var hi := SliceBound(b, |s|);
    if lo < hi then s[lo..hi] else []
  }

  /** `f` at each of `i`, `i + step`, ... below `n`: `[f(p) for p in range(i, n, step)]`. */
  function Strided<T>(n: nat, i: nat, step: nat, f: nat -> T): seq<T>
    requires step > 0
    decreases n - i
  {
    if i >= n then [] else [f(i)] + Strided(n, i + step, step, f)
  }

  /**
   The windows starting at `i`, `i + step`, ... below the end, each `size` tokens
   long or cut off by the end: a reference for the loop of `chunk_text`.
   */
  function Windows(tokens: seq<Token>, i: nat, size: int, step: nat): seq<seq<Token>>
    requires step > 0
  {
    Strided(|tokens|, i, step, p => PySlice(tokens, p, p + size))
  }

  /** Where window `k` starts: `k` steps from the beginning (0, step, 2·step, ...). */
  function Start(k: nat, step: nat): nat {
    if k == 0 then 0 else Start(k - 1, step) + step
  }

  /** The starts are the multiples of the step. */
  lemma {:induction false} StartIsMultiple(k: nat, step: nat)
    ensures Start(k, step) == k * step
  {
    if k > 0 {
      StartIsMultiple(k - 1, step);
      assert k * step == (k - 1) * step + step;
    }
  }

  /** Later windows start further on. */
  lemma {:induction false} StartMonotone(a: nat, b: nat, step: nat)
    ensures a <= b ==> Start(a, step) <= Start(b, step)
    decreases b
  {
    if a < b {
      StartMonotone(a, b - 1, step);
    }
  }

  /** Element `k` from `i` is `f` at `k` steps after `i`, below the end. */
  lemma {:induction false} StridedAt<T>(n: nat, i: nat, step: nat, f: nat -> T, k: nat)
    requires step > 0 && k < |Strided(n, i, step, f)|
    ensures i + Start(k, step) < n
    ensures Strided(n, i, step, f)[k] == f(i + Start(k, step))
    decreases k
  {
    if k > 0 {
      StridedAt(n, i + step, step, f, k - 1);
      StartShift(k, step);
    }
  }

  /** Window `k` of the windows from `i` starts `k` steps after `i`, below the end. */
  lemma WindowAt(tokens: seq<Token>, i: nat, size: int, step: nat, k: nat)
    requires step > 0 && k < |Windows(tokens, i, size, step)|
    ensures i + Start(k, step) < |tokens|
    ensures Windows(tokens, i, size, step)[k] == PySlice(tokens, i + Start(k, step), i + Start(k, step) + size)
  {
    StridedAt(|tokens|, i, step, p => PySlice(tokens, p, p + size), k);
  }

  /** Below the end, the windows from `i` are the window at `i` followed by the windows one step on. */
  lemma WindowsStep(tokens: seq<Token>, i: nat, size: int, step: nat)
    requires step > 0 && i < |tokens|
    ensures Windows(tokens, i, size, step) == [PySlice(tokens, i, i + size)] + Windows(tokens, i + step, size, step)
  {
  }

  /** Starting one step later is one step further on. */
  lemma {:induction false} StartShift(k: nat, step: nat)
    requires k > 0
    ensures Start(k, step) == step + Start(k - 1, step)
  {
  }

  /** There are just enough elements for the last step to pass the end. */
  lemma {:induction false} StridedCount<T>(n: nat, i: nat, step: nat, f: nat -> T)
    requires step > 0
    ensures var m := |Strided(n, i, step, f)|;
      && i + Start(m, step) >= n
      && (m > 0 ==> i + Start(m - 1, step) < n)
    decreases n - i
  {
    if i < n {
      StridedCount(n, i + step, step, f);
      var m := |Strided(n, i + step, step, f)|;
      StartShift(m + 1, step);
      if m > 0 {
        StartShift(m, step);
      }
    }
  }

  /** There are just enough windows for their starts to pass the last token. */
  lemma WindowsCount(tokens: seq<Token>, i: nat, size: int, step: nat)
    requires step > 0
    ensures var m := |Windows(tokens, i, size, step)|;
      && i + Start(m, step) >= |tokens|
      && (m > 0 ==> i + Start(m - 1, step) < |tokens|)
  {
    StridedCount(|tokens|, i, step, p => PySlice(tokens, p, p + size));
  }

  /**
   The windows promised by `chunk_text`: window `k` is `tokens[k*step : k*step + size]`,
   and there are just enough of them for their starts to pass the last token.
   */
  predicate LaidOut(tokens: seq<Token>, ws: seq<seq<Token>>, size: int, step: nat) {
    && Start(|ws|, step) >= |tokens|
    && (|ws| > 0 ==> Start(|ws| - 1, step) < |tokens|)
    && forall k :: 0 <= k < |ws| ==> ws[k] == PySlice(tokens, Start(k, step), Start(k, step) + size)
  }

  /** The windows from the first token are laid out as `chunk_text` promises. */
  lemma WindowsFromZero(tokens: seq<Token>, size: int, step: nat)
    requires step > 0
    ensures LaidOut(tokens, Windows(tokens, 0, size, step), size, step)
  {
    var ws := Windows(tokens, 0, size, step);
    WindowsCount(tokens, 0, size, step);
    forall k | 0 <= k < |ws| ensures ws[k] == PySlice(tokens, Start(k, step), Start(k, step) + size) {
      WindowAt(tokens, 0, size, step, k);
    }
  }

  /**
   The token windows of `chunk_text`. A zero step is Python's `ValueError` from
   `range`; a negative step gives no window. Otherwise window `k` starts at
   `Start(k, step)` (that is, `k * step`) and there are just enough windows for
   their starts to pass the last token (ceil(n / step) of them).
   */
  method ChunkTokens(tokens: seq<Token>, chunkSize: int, overlap: int) returns (r: Result<seq<seq<Token>>>)
    ensures r.Err? <==> chunkSize - overlap == 0
    ensures r.Err? ==> r.message == ZeroStepMessage
    ensures chunkSize - overlap < 0 ==> r == Ok([])
    ensures chunkSize - overlap > 0 ==> r.Ok? && r.value == Windows(tokens, 0, chunkSize, chunkSize - overlap)
    ensures chunkSize - overlap > 0 ==> r.Ok? && LaidOut(tokens, r.value, chunkSize, chunkSize - overlap)
  {
    var step := chunkSize - overlap;
    if step == 0 {
      return Err(ZeroStepMessage);
    }
    if step < 0 {
      return Ok([]);
    }
    var chunks: seq<seq<Token>> := [];
    var i := 0;
    while i < |tokens|
      invariant chunks + Windows(tokens, i, chunkSize, step) == Windows(tokens, 0, chunkSize, step)
      decreases |tokens| - i
    {
      WindowsStep(tokens, i, chunkSize, step);
      assert chunks + Windows(tokens, i, chunkSize, step)
        == (chunks + [PySlice(tokens, i, i + chunkSize)]) + Windows(tokens, i + step, chunkSize, step);
      chunks := chunks + [PySlice(tokens, i, i + chunkSize)];
      i := i + step;
    }
    assert Windows(tokens, i, chunkSize, step) == [];
    assert chunks == Windows(tokens, 0, chunkSize, step);
    WindowsFromZero(tokens, chunkSize, step);
    return Ok(chunks);
  }

  /** Each window decoded back to text. */
  function DecodeAll(ws: seq<seq<Token>>, decode: seq<Token> -> string): (cs: seq<string>)
    ensures |cs| == |ws| && forall k :: 0 <= k < |ws| ==> cs[k] == decode(ws[k])
  {
    seq(|ws|, k requires 0 <= k < |ws| => decode(ws[k]))
  }

  /**
   The chunks promised by `chunk_text`: chunk `k` is the decoding of
   `tokens[k*step : k*step + size]`, and there are ceil(n / step) of them.
   */
  predicate ChunksLaidOut(tokens: seq<Token>, cs: seq<string>, size: int, step: nat, decode: seq<Token> -> string) {
    && Start(|cs|, step) >= |tokens|
    && (|cs| > 0 ==> Start(|cs| - 1, step) < |tokens|)
    && forall k :: 0 <= k < |cs| ==> cs[k] == decode(PySlice(tokens, Start(k, step), Start(k, step) + size))
  }

  /** Decoding laid-out windows gives laid-out chunks. */
  lemma DecodeLaidOut(tokens: seq<Token>, ws: seq<seq<Token>>, size: int, step: nat, decode: seq<Token> -> string)
    requires LaidOut(tokens, ws, size, step)
    ensures ChunksLaidOut(tokens, DecodeAll(ws, decode), size, step, decode)
  {
    var cs := DecodeAll(ws, decode);
    assert |cs| == |ws|;
    forall k | 0 <= k < |cs| ensures cs[k] == decode(PySlice(tokens, Start(k, step), Start(k, step) + size)) {
      assert ws[k] == PySlice(tokens, Start(k, step), Start(k, step) + size);
      assert cs[k] == decode(ws[k]);
    }
  }

  /**
   `chunk_text`: the token windows of the encoded text, each decoded back to text.
   `encode` and `decode` stand for the tokenizer.
   */
  method ChunkText(text: string, encode: string -> seq<Token>, decode: seq<Token> -> string,
                   chunkSize: int, overlap: int) returns (r: Result<seq<string>>)
    ensures r.Err? <==> chunkSize - overlap == 0
    ensures r.Err? ==> r.message == ZeroStepMessage
    ensures chunkSize - overlap < 0 ==> r == Ok([])
    ensures chunkSize - overlap > 0 ==> r.Ok? && ChunksLaidOut(encode(text), r.value, chunkSize, chunkSize - overlap, decode)
  {
    var tokens := encode(text);
    var windows := ChunkTokens(tokens, chunkSize, overlap);
    if windows.Err? {
      return Err(windows.message);
    }
    if windows.value == [] {
      return Ok([]);
    }
    if chunkSize - overlap > 0 {
      DecodeLaidOut(tokens, windows.value, chunkSize, chunkSize - overlap, decode);
    }
    return Ok(DecodeAll(windows.value, decode));
  }

  /** Ingestion's call: windows of 500 tokens starting every 400 tokens. */
  method IngestChunks(text: string, encode: string -> seq<Token>, decode: seq<Token> -> string)
    returns (chunks: seq<string>)
    ensures ChunksLaidOut(encode(text), chunks, 500, 400, decode)
  {
    var r := ChunkText(text, encode, decode, DefaultChunkSize, DefaultOverlap);
    chunks := r.value;
  }

  // ---------------------------------------------------------------------------
  // Properties of the windows when 0 < step <= size, that is 0 <= overlap < size
  // ---------------------------------------------------------------------------

  /**
   Each window is `tokens[start : min(start + size, n)]`: never empty, at most
   `size` tokens, and shorter only when it runs to the end of the tokens.
   */
  lemma WindowShape(tokens: seq<Token>, size: int, step: nat, k: nat)
    requires 0 < step <= size
    requires k < |Windows(tokens, 0, size, step)|
    ensures var w := Windows(tokens, 0, size, step)[k]; var a := Start(k, step);
      && a < |tokens|
      && w == tokens[a..Min(a + size, |tokens|)]
      && 0 < |w| <= size
      && (|w| < size ==> a + |w| == |tokens|)
  {
    WindowAt(tokens, 0, size, step, k);
  }

  /**
   Consecutive windows overlap by `size - step` tokens (the overlap): when a window
   is full and a next one exists, its last `size - step` tokens are the next one's first.
   */
  lemma WindowsOverlap(tokens: seq<Token>, size: int, step: nat, k: nat)
    requires 0 < step <= size
    requires k + 1 < |Windows(tokens, 0, size, step)|
    requires |Windows(tokens, 0, size, step)[k]| == size
    ensures var ws := Windows(tokens, 0, size, step);
      |ws[k + 1]| >= size - step && ws[k][step..] == ws[k + 1][..size - step]
  {
    var ws := Windows(tokens, 0, size, step);
    WindowShape(tokens, size, step, k);
    WindowShape(tokens, size, step, k + 1);
    StartShift(k + 1, step);
    OverlapOfSlices(tokens, Start(k, step), size, step, ws[k], ws[k + 1]);
  }

  /** The slice one step further on begins with the first slice's last `size - step` tokens. */
  lemma OverlapOfSlices(tokens: seq<Token>, a: nat, size: int, step: nat, w0: seq<Token>, w1: seq<Token>)
    requires 0 < step <= size && a + size <= |tokens|
    requires w0 == tokens[a..a + size]
    requires w1 == tokens[a + step..Min(a + step + size, |tokens|)]
    ensures |w1| >= size - step && w0[step..] == w1[..size - step]
  {
    var b := Min(a + step + size, |tokens|);
    assert a + size <= b;
    SliceOfSlice(tokens, a, a + size, step, size);
    SliceOfSlice(tokens, a + step, b, 0, size - step);
  }

  /** A slice of a slice is a slice of the original. */
  lemma SliceOfSlice(s: seq<Token>, lo: nat, hi: nat, i: nat, j: nat)
    requires lo <= hi <= |s| && i <= j <= hi - lo
    ensures s[lo..hi][i..j] == s[lo + i..lo + j]
  {
    forall m | 0 <= m < j - i ensures s[lo..hi][i..j][m] == s[lo + i..lo + j][m] {
      assert s[lo..hi][i..j][m] == s[lo..hi][i + m] == s[lo + i + m];
    }
  }

  /** Every token lies in some window — window `j / step` — so no text is lost between chunks. */
  lemma WindowsCover(tokens: seq<Token>, size: int, step: nat, j: nat) returns (k: nat)
    requires 0 < step <= size
    requires j < |tokens|
    ensures k == j / step
    ensures var ws := Windows(tokens, 0, size, step);
      && k < |ws|
      && Start(k, step) <= j < Start(k, step) + |ws[k]|
      && ws[k][j - Start(k, step)] == tokens[j]
  {
    var ws := Windows(tokens, 0, size, step);
    k := StepContaining(j, step);
    WindowsCount(tokens, 0, size, step);
    StartMonotone(|ws|, k, step);
    assert k < |ws|;
    WindowShape(tokens, size, step, k);
    var a := Start(k, step);
    var hi := Min(a + size, |tokens|);
    assert ws[k] == tokens[a..hi] && j < hi;
    assert ws[k][j - a] == tokens[j];
  }

  /** The step `j / step` starts at or before `j` and less than a step before it. */
  lemma StepContaining(j: nat, step: nat) returns (k: nat)
    requires step > 0
    ensures k == j / step
    ensures Start(k, step) <= j < Start(k, step) + step
  {
    k := j / step;
    StartIsMultiple(k, step);
  }

  /** The first `step` tokens of a window are the tokens up to the next window's start. */
  lemma HeadOfWindow(tokens: seq<Token>, i: nat, size: int, step: nat, w: seq<Token>)
    requires 0 < step <= size && i < |tokens|
    requires w == PySlice(tokens, i, i + size)
    ensures w[..Min(step, |w|)] == tokens[i..Min(i + step, |tokens|)]
  {
    var hi := Min(i + size, |tokens|);
    assert w == tokens[i..hi];
    assert Min(step, |w|) == Min(i + step, |tokens|) - i;
    SliceOfSlice(tokens, i, hi, 0, Min(step, |w|));
  }

  /** The first `step` tokens of each window, in order. */
  function Heads(ws: seq<seq<Token>>, step: nat): seq<Token> {
    if ws == [] then [] else ws[0][..Min(step, |ws[0]|)] + Heads(ws[1..], step)
  }

  /**
   Dropping each window's overlap with the next and concatenating gives back
   exactly the tokens from the first window's start: the windows tile the text.
   */
  lemma {:induction false} WindowsReassemble(tokens: seq<Token>, i: nat, size: int, overlap: int)
    requires 0 <= overlap < size
    requires i <= |tokens|
    ensures Heads(Windows(tokens, i, size, size - overlap), size - overlap) == tokens[i..]
    decreases |tokens| - i
  {
    var step := size - overlap;
    var ws := Windows(tokens, i, size, step);
    if i < |tokens| {
      var rest := Windows(tokens, i + step, size, step);
      WindowsStep(tokens, i, size, step);
      assert ws[0] == PySlice(tokens, i, i + size) && ws[1..] == rest;
      assert Heads(ws, step) == ws[0][..Min(step, |ws[0]|)] + Heads(rest, step);
      HeadOfWindow(tokens, i, size, step, ws[0]);
      if i + step <= |tokens| {
        WindowsReassemble(tokens, i + step, size, overlap);
        assert tokens[i..] == tokens[i..i + step] + tokens[i + step..];
      } else {
        assert rest == [];
      }
    }
  }
}
