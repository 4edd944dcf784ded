/**
 * `TextChunker` of agents/lib/chunker.py: a sliding window of `chunk_size` words
 * that advances by `chunk_size - overlap` words.
 */
module Chunker {
  import opened Wrappers
  import opened Text

  /** The longest prefix of `s` without white space. */
  function TakeWord(s: string): (w: string)
    ensures |w| <= |s| && w == s[..|w|]
    ensures forall i :: 0 <= i < |w| ==> !IsPySpace(w[i])
    ensures |w| < |s| ==> IsPySpace(s[|w|])
  {
    if s == [] || IsPySpace(s[0]) then [] else [s[0]] + TakeWord(s[1..])
  }

  predicate NoSpace(w: string)
  {
    forall i :: 0 <= i < |w| ==> !IsPySpace(w[i])
  }

  predicate AllSpace(s: string)
  {
    forall i :: 0 <= i < |s| ==> IsPySpace(s[i])
  }

  /** Python's `str.split()`: the maximal runs of non-white-space characters, in order. */
  function Split(s: string): (words: seq<string>)
    ensures forall i :: 0 <= i < |words| ==> words[i] != [] && NoSpace(words[i])
    decreases |s|
  {
    var t := TrimStart(s, IsPySpace);
    if t == [] then []
    else
      var w := TakeWord(t);
      var rest := Split(t[|w|..]);
      ConsWords(w, rest);
      [w] + rest
  }

  lemma ConsWords(w: string, rest: seq<string>)
    requires w != [] && NoSpace(w)
    requires forall i :: 0 <= i < |rest| ==> rest[i] != [] && NoSpace(rest[i])
    ensures forall i :: 0 <= i < |rest| + 1 ==> ([w] + rest)[i] != [] && NoSpace(([w] + rest)[i])
  {
    forall i | 0 <= i < |rest| + 1
      ensures ([w] + rest)[i] != [] && NoSpace(([w] + rest)[i])
    {
      if i > 0 {
        assert ([w] + rest)[i] == rest[i - 1];
      }
    }
  }

  /** Empty or white-space-only text is exactly the text with no words. */
  lemma {:induction false} SplitEmptyIff(s: string)
    ensures Split(s) == [] <==> AllSpace(s)
  {
    var t := TrimStart(s, IsPySpace);
    if t != [] {
      assert !IsPySpace(s[|s| - |t|]);
    }
  }

  /** A Python slice bound: negative counts from the back, then clamped to `0..n`. */
  function SliceBound(i: int, n: nat): (b: nat)
    ensures b <= n
    ensures 0 <= i <= n ==> b == i
  {
    if i < 0 then (if i + n < 0 then 0 else i + n) else (if i > n then n else i)
  }

  /** `words[start:end]` with Python's slice rules. */
  function PySlice(words: seq<string>, start: int, end: int): (r: seq<string>)
  {
    var s, e := SliceBound(start, |words|), SliceBound(end, |words|);
    if s <= e then words[s..e] else []
  }

  /** The words of chunk `k`: the window starting at `k * step`. */
  function Window(words: seq<string>, chunkSize: int, overlap: int, k: nat): seq<string>
    requires chunkSize > overlap
  {
    var step := chunkSize - overlap;
    PySlice(words, k * step, k * step + chunkSize)
  }

  /** The number of window starts `0, step, 2 * step, …` below `n`. */
  function NumChunks(n: nat, step: nat): nat
    requires step > 0
    decreases n
  {
    if n == 0 then 0 else if n <= step then 1 else 1 + NumChunks(n - step, step)
  }

  lemma MulSucc(k: nat, step: int)
    ensures (k + 1) * step == k * step + step
  {
  }

  /** The start of round `k` of a loop that adds `step` each round: `k * step`, built by addition. */
  function Times(k: nat, step: int): int
    decreases k
  {
    if k == 0 then 0 else Times(k - 1, step) + step
  }

  lemma {:induction false} TimesIsProduct(k: nat, step: int)
    ensures Times(k, step) == k * step
    decreases k
  {
    if k > 0 {
      TimesIsProduct(k - 1, step);
      MulSucc(k - 1, step);
    }
  }

  /** Chunk `k` exists exactly when its first word index `k * step` is below the word count. */
  lemma {:induction false} NumChunksCountsStarts(n: nat, step: nat, k: nat)
    requires step > 0
    ensures k < NumChunks(n, step) <==> k * step < n
    decreases n
  {
    if n == 0 || n <= step {
      if k > 0 {
        MulSucc(k - 1, step);
      }
    } else if k > 0 {
      NumChunksCountsStarts(n - step, step, k - 1);
      MulSucc(k - 1, step);
    }
  }

  /** The first `c` with `c * step >= n` is the number of chunks. */
  lemma CountAtExit(n: nat, step: nat, c: nat)
    requires step > 0 && c * step >= n && (c == 0 || (c - 1) * step < n)
    ensures c == NumChunks(n, step)
  {
    NumChunksCountsStarts(n, step, c);
    if c > 0 {
      NumChunksCountsStarts(n, step, c - 1);
    }
  }

  class TextChunker {
    const chunkSize: int
    const overlap: int

    constructor(chunkSize: int := 500, overlap: int := 50)
      ensures this.chunkSize == chunkSize && this.overlap == overlap
    {
      this.chunkSize := chunkSize;
      this.overlap := overlap;
    }

    /**
     * `chunk_text`: chunk `k` is the `k`-th window of the words joined with single
     * spaces, and there is one chunk per window start below the word count. Text
     * without words gives no chunks whatever the configuration; on other text the
     * loop ends only when the step `chunk_size - overlap` is positive (see `ChunkLoop`).
     */
    method ChunkText(text: string) returns (chunks: seq<string>)
      requires chunkSize > overlap || Split(text) == []
      ensures Split(text) == [] ==> chunks == []
      ensures chunkSize > overlap ==> AreChunks(Split(text), chunkSize, overlap, chunks)
    {
      var words := Split(text);
      chunks := ChunkWords(words);
    }

    /** The loop of `chunk_text` over the words of the text. */
    method ChunkWords(words: seq<string>) returns (chunks: seq<string>)
      requires chunkSize > overlap || words == []
      ensures words == [] ==> chunks == []
      ensures chunkSize > overlap ==> AreChunks(words, chunkSize, overlap, chunks)
    {
      var step := chunkSize - overlap;
      chunks := [];
      var start := 0;
      while start < |words|
        invariant step > 0 || |words| == 0
        invariant start == Times(|chunks|, step)
        invariant |chunks| == 0 || start - step < |words|
        invariant forall k :: 0 <= k < |chunks| ==> chunks[k] == RoundChunk(words, k)
        decreases |words| - start
      {
        var chunk := ChunkAt(words, start);
        AppendRound(words, chunks, start);
        chunks := chunks + [chunk];
        start := start + step;
      }
      if step > 0 {
        ChunksAtExit(words, chunks);
      }
    }

    /**
     * The loop of `chunk_text` exactly as written, stopped after at most `fuel`
     * rounds; `running` says its guard `start < len(words)` still holds. With
     * `chunk_size <= overlap` the start never grows, so on text with a word the loop
     * is still running after any number of rounds: it never ends.
     */
    method ChunkLoop(text: string, fuel: nat) returns (chunks: seq<string>, running: bool)
      ensures |chunks| <= fuel
      ensures forall k :: 0 <= k < |chunks| ==> chunks[k] == RoundChunk(Split(text), k)
      ensures chunkSize <= overlap && Split(text) != [] ==> running && |chunks| == fuel
    {
      var words := Split(text);
      chunks, running := ChunkWordsLoop(words, fuel);
    }

    /** At most `fuel` rounds of the loop of `chunk_text` over `words`. */
    method ChunkWordsLoop(words: seq<string>, fuel: nat) returns (chunks: seq<string>, running: bool)
      ensures |chunks| <= fuel
      ensures forall k :: 0 <= k < |chunks| ==> chunks[k] == RoundChunk(words, k)
      ensures chunkSize <= overlap && words != [] ==> running && |chunks| == fuel
    {
      var step := chunkSize - overlap;
      chunks := [];
      var start := 0;
      while |chunks| < fuel && start < |words|
        invariant |chunks| <= fuel
        invariant start == Times(|chunks|, step)
        invariant step <= 0 ==> start <= 0
        invariant forall k :: 0 <= k < |chunks| ==> chunks[k] == RoundChunk(words, k)
        decreases fuel - |chunks|
      {
        var chunk := ChunkAt(words, start);
        AppendRound(words, chunks, start);
        chunks := chunks + [chunk];
        start := start + step;
      }
      running := start < |words|;
      if step <= 0 && words != [] {
        assert start <= 0 < |words|;
      }
    }

    /** Appending the chunk of round `|chunks|` keeps every chunk equal to its round. */
    lemma AppendRound(words: seq<string>, chunks: seq<string>, start: int)
      requires forall k :: 0 <= k < |chunks| ==> chunks[k] == RoundChunk(words, k)
      requires start == Times(|chunks|, chunkSize - overlap)
      ensures var next := chunks + [ChunkAt(words, start)];
              && (forall k :: 0 <= k < |next| ==> next[k] == RoundChunk(words, k))
              && start + (chunkSize - overlap) == Times(|next|, chunkSize - overlap)
    {
      var next := chunks + [ChunkAt(words, start)];
      forall k | 0 <= k < |next|
        ensures next[k] == RoundChunk(words, k)
      {
        if k < |chunks| {
          assert next[k] == chunks[k];
        }
      }
    }

    /** When the loop stops with a positive step, its rounds are the windows, one per start. */
    lemma ChunksAtExit(words: seq<string>, chunks: seq<string>)
      requires chunkSize > overlap
      requires Times(|chunks|, chunkSize - overlap) >= |words|
      requires |chunks| == 0 || Times(|chunks|, chunkSize - overlap) - (chunkSize - overlap) < |words|
      requires forall k :: 0 <= k < |chunks| ==> chunks[k] == RoundChunk(words, k)
      ensures AreChunks(words, chunkSize, overlap, chunks)
    {
      var step := chunkSize - overlap;
      TimesIsProduct(|chunks|, step);
      if |chunks| > 0 {
        MulSucc(|chunks| - 1, step);
      }
      CountAtExit(|words|, step, |chunks|);
      forall k | 0 <= k < |chunks|
        ensures chunks[k] == Join(Window(words, chunkSize, overlap, k), " ")
      {
        TimesIsProduct(k, step);
      }
    }

    /** `" ".join(words[start:start + chunk_size])`. */
    function ChunkAt(words: seq<string>, start: int): string
    {
      Join(PySlice(words, start, start + chunkSize), " ")
    }

    /** The chunk the loop as written appends in round `k`, when its start is `k * (chunk_size - overlap)`. */
    function RoundChunk(words: seq<string>, k: nat): string
    {
      ChunkAt(words, Times(k, chunkSize - overlap))
    }

    /**
     * `chunk_text` with the guard its loop needs: a step that is not positive is
     * rejected with ValueError instead of looping; otherwise the chunks of `ChunkText`.
     */
    method CheckedChunkText(text: string) returns (r: Result<seq<string>>)
      ensures r.Err? <==> chunkSize <= overlap
      ensures r.Err? ==> r.error.ValueError?
      ensures r.Ok? ==> AreChunks(Split(text), chunkSize, overlap, r.value)
    {
      if chunkSize <= overlap {
        return Err(ValueError("overlap must be smaller than chunk_size"));
      }
      var chunks := ChunkText(text);
      r := Ok(chunks);
    }
  }

  /** One chunk per window start below the word count, chunk `k` the `k`-th window joined by spaces. */
  ghost predicate AreChunks(words: seq<string>, chunkSize: int, overlap: int, chunks: seq<string>)
    requires chunkSize > overlap
  {
    && |chunks| == NumChunks(|words|, chunkSize - overlap)
    && forall k :: 0 <= k < |chunks| ==> chunks[k] == Join(Window(words, chunkSize, overlap, k), " ")
  }

  lemma {:induction false} JoinNonEmpty(parts: seq<string>, sep: string)
    requires parts != [] && parts[0] != []
    ensures Join(parts, sep) != []
  {
  }

  /** Empty or white-space-only text gives no chunks, and any other text at least one. */
  lemma EmptyTextNoChunks(text: string, chunkSize: int, overlap: int)
    requires chunkSize > overlap
    ensures NumChunks(|Split(text)|, chunkSize - overlap) == 0 <==> AllSpace(text)
  {
    SplitEmptyIff(text);
  }

  /**
   * With a positive `chunk_size` every chunk holds between one and `chunk_size`
   * words, and so is a non-empty string.
   */
  lemma ChunkBounds(words: seq<string>, chunkSize: int, overlap: int, k: nat)
    requires chunkSize > 0 && chunkSize > overlap
    requires forall i :: 0 <= i < |words| ==> words[i] != []
    requires k < NumChunks(|words|, chunkSize - overlap)
    ensures 1 <= |Window(words, chunkSize, overlap, k)| <= chunkSize
    ensures Join(Window(words, chunkSize, overlap, k), " ") != []
  {
    var step := chunkSize - overlap;
    var n := |words|;
    NumChunksCountsStarts(n, step, k);
    var s := k * step;
    WindowAt(words, chunkSize, overlap, k, s);
    var w := Window(words, chunkSize, overlap, k);
    assert w[0] == words[s];
    JoinNonEmpty(w, " ");
  }

  lemma DivStart(i: nat, step: nat)
    requires step > 0
    ensures (i / step) * step <= i < (i / step) * step + step
  {
  }

  /** Window `k` starting at `start <= len(words)` is the plain slice from `start`, clamped at the end. */
  lemma WindowAt(words: seq<string>, chunkSize: int, overlap: int, k: nat, start: int)
    requires 0 < chunkSize && overlap < chunkSize
    requires start == k * (chunkSize - overlap) && 0 <= start <= |words|
    ensures Window(words, chunkSize, overlap, k) == words[start..if start + chunkSize > |words| then |words| else start + chunkSize]
  {
  }

  /** With `0 <= overlap < chunk_size`, every word lies in some chunk. */
  lemma EveryWordCovered(words: seq<string>, chunkSize: int, overlap: int, i: nat)
    requires 0 <= overlap < chunkSize && i < |words|
    ensures exists k :: 0 <= k < NumChunks(|words|, chunkSize - overlap) &&
              words[i] in Window(words, chunkSize, overlap, k)
  {
    var step := chunkSize - overlap;
    var k := i / step;
    var start := k * step;
    DivStart(i, step);
    NumChunksCountsStarts(|words|, step, k);
    WindowAt(words, chunkSize, overlap, k, start);
    var w := Window(words, chunkSize, overlap, k);
    assert w[i - start] == words[i];
  }

  /** Consecutive full chunks share exactly `overlap` words: the tail of one is the head of the next. */
  lemma ConsecutiveChunksOverlap(words: seq<string>, chunkSize: int, overlap: int, k: nat)
    requires 0 <= overlap < chunkSize
    requires (k + 1) * (chunkSize - overlap) + chunkSize <= |words|
    ensures var a, b := Window(words, chunkSize, overlap, k), Window(words, chunkSize, overlap, k + 1);
            |a| == |b| == chunkSize && a[chunkSize - overlap..] == b[..overlap]
  {
    var step := chunkSize - overlap;
    var s := k * step;
    MulSucc(k, step);
    WindowAt(words, chunkSize, overlap, k, s);
    WindowAt(words, chunkSize, overlap, k + 1, s + step);
  }
}
