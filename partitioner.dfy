/**
 * Splitting a pull request's file diffs into review chunks bounded by line
 * count: greedy, order-preserving and never cutting through a file. A file
 * larger than the bound forms a chunk of its own.
 */
module Partitioner {
  import opened Wrappers
  import opened Text
  import opened Models

  /** The bound used when none is configured. */
  const DefaultMaxLines: int := 2000

  /** A file's size: the number of lines of its diff text. */
  function FileLines(f: FileDiff): nat {
    LineCount(f.diffContent)
  }

  function TotalLines(fs: seq<FileDiff>): nat
    decreases |fs|
  {
    if |fs| == 0 then 0 else TotalLines(fs[..|fs| - 1]) + FileLines(fs[|fs| - 1])
  }

  /** The chunks laid end to end. */
  function Flatten(cs: seq<seq<FileDiff>>): seq<FileDiff>
    decreases |cs|
  {
    if |cs| == 0 then [] else Flatten(cs[..|cs| - 1]) + cs[|cs| - 1]
  }

  /** A chunk made of one file that is over the bound by itself. */
  predicate Oversized(c: seq<FileDiff>, maxLines: int) {
    |c| == 1 && FileLines(c[0]) > maxLines
  }

  predicate NonEmptyChunks(cs: seq<seq<FileDiff>>) {
    forall k :: 0 <= k < |cs| ==> |cs[k]| > 0
  }

  /** Every chunk keeps to the bound unless it is an oversized single file. */
  predicate WithinBound(cs: seq<seq<FileDiff>>, maxLines: int) {
    forall k :: 0 <= k < |cs| ==> TotalLines(cs[k]) <= maxLines || Oversized(cs[k], maxLines)
  }

  /** A file over the bound is alone in its chunk. */
  predicate OversizedAlone(cs: seq<seq<FileDiff>>, maxLines: int) {
    forall k, j :: 0 <= k < |cs| && 0 <= j < |cs[k]| && FileLines(cs[k][j]) > maxLines ==> cs[k] == [cs[k][j]]
  }

  /**
   * Chunk `c` is closed before `d` for a reason: `c` is an oversized file, `d`
   * starts with an oversized file, or `d`'s first file would push `c` past the bound.
   */
  predicate Break(c: seq<FileDiff>, d: seq<FileDiff>, maxLines: int) {
    Oversized(c, maxLines) || |d| == 0 || FileLines(d[0]) > maxLines
    || TotalLines(c) + FileLines(d[0]) > maxLines
  }

  /** Greedy: no two neighbouring chunks could have been one. */
  predicate GreedyBreaks(cs: seq<seq<FileDiff>>, maxLines: int) {
    forall k :: 0 <= k < |cs| - 1 ==> Break(cs[k], cs[k + 1], maxLines)
  }

  // ---------------------------------------------------------------------------
  // The loop's state and one step of it

  /** The closed chunks, the chunk being filled and its line total. */
  datatype Acc = Acc(chunks: seq<seq<FileDiff>>, current: seq<FileDiff>, currentLines: int)

  /** One iteration: an oversized file, a file that does not fit, a file that fits. */
  function Step(a: Acc, f: FileDiff, maxLines: int): Acc {
    var n := FileLines(f);
    if n > maxLines then
      if |a.current| > 0 then Acc(a.chunks + [a.current] + [[f]], [], 0)
      else Acc(a.chunks + [[f]], a.current, a.currentLines)
    else if a.currentLines + n > maxLines then Acc(a.chunks + [a.current], [f], n)
    else Acc(a.chunks, a.current + [f], a.currentLines + n)
  }

  /** The state after the loop has consumed `fs`. */
  function Run(fs: seq<FileDiff>, maxLines: int): Acc
    decreases |fs|
  {
    if |fs| == 0 then Acc([], [], 0) else Step(Run(fs[..|fs| - 1], maxLines), fs[|fs| - 1], maxLines)
  }

  /** The chunks after the loop and the final flush. */
  function Partition(fs: seq<FileDiff>, maxLines: int): seq<seq<FileDiff>> {
    var a := Run(fs, maxLines);
    if |a.current| > 0 then a.chunks + [a.current] else a.chunks
  }

  // ---------------------------------------------------------------------------
  // Proof

  lemma FlattenAppend(cs: seq<seq<FileDiff>>, c: seq<FileDiff>)
    ensures Flatten(cs + [c]) == Flatten(cs) + c
  {
    assert (cs + [c])[..|cs|] == cs;
  }

  lemma TotalAppend(fs: seq<FileDiff>, f: FileDiff)
    ensures TotalLines(fs + [f]) == TotalLines(fs) + FileLines(f)
  {
    assert (fs + [f])[..|fs|] == fs;
  }

  lemma TotalSingle(f: FileDiff)
    ensures TotalLines([f]) == FileLines(f)
  {
    TotalAppend([], f);
  }

  /** What holds of the loop's state after each iteration. */
  predicate Inv(a: Acc, fs: seq<FileDiff>, maxLines: int) {
    && Flatten(a.chunks) + a.current == fs
    && NonEmptyChunks(a.chunks)
    && WithinBound(a.chunks, maxLines)
    && GreedyBreaks(a.chunks, maxLines)
    && a.currentLines == TotalLines(a.current)
    && (|a.current| > 0 ==> a.currentLines <= maxLines)
    && (|a.chunks| > 0 ==> Break(a.chunks[|a.chunks| - 1], a.current, maxLines))
    && (|a.chunks| > 0 && |a.current| == 0 ==> Oversized(a.chunks[|a.chunks| - 1], maxLines))
  }

  /** Closing chunk `c` keeps the invariants on the closed chunks. */
  lemma {:induction false} CloseChunk(cs: seq<seq<FileDiff>>, c: seq<FileDiff>, maxLines: int)
    requires NonEmptyChunks(cs) && WithinBound(cs, maxLines) && GreedyBreaks(cs, maxLines)
    requires |c| > 0 && (TotalLines(c) <= maxLines || Oversized(c, maxLines))
    requires |cs| > 0 ==> Break(cs[|cs| - 1], c, maxLines)
    ensures NonEmptyChunks(cs + [c]) && WithinBound(cs + [c], maxLines) && GreedyBreaks(cs + [c], maxLines)
    ensures Flatten(cs + [c]) == Flatten(cs) + c
  {
    FlattenAppend(cs, c);
    var ds := cs + [c];
    forall k | 0 <= k < |ds| - 1
      ensures Break(ds[k], ds[k + 1], maxLines)
    {
      if k < |cs| - 1 {
        assert ds[k] == cs[k] && ds[k + 1] == cs[k + 1];
      }
    }
  }

  lemma StepInv(a: Acc, fs: seq<FileDiff>, f: FileDiff, fs': seq<FileDiff>, maxLines: int)
    requires Inv(a, fs, maxLines) && fs' == fs + [f]
    ensures Inv(Step(a, f, maxLines), fs', maxLines)
  {
    var n := FileLines(f);
    if n > maxLines {
      StepOversized(a, fs, f, maxLines);
    } else if a.currentLines + n > maxLines {
      StepOverflow(a, fs, f, maxLines);
    } else {
      StepFits(a, fs, f, maxLines);
    }
  }

  /** An oversized file closes the current chunk, if any, and forms a chunk of its own. */
  lemma StepOversized(a: Acc, fs: seq<FileDiff>, f: FileDiff, maxLines: int)
    requires Inv(a, fs, maxLines) && FileLines(f) > maxLines
    ensures Inv(Step(a, f, maxLines), fs + [f], maxLines)
  {
    TotalSingle(f);
    if |a.current| > 0 {
      CloseChunk(a.chunks, a.current, maxLines);
      CloseChunk(a.chunks + [a.current], [f], maxLines);
      assert Flatten(a.chunks + [a.current] + [[f]]) == Flatten(a.chunks) + a.current + [f];
    } else {
      CloseChunk(a.chunks, [f], maxLines);
    }
  }

  /** A file that does not fit closes the current chunk and starts the next one. */
  lemma StepOverflow(a: Acc, fs: seq<FileDiff>, f: FileDiff, maxLines: int)
    requires Inv(a, fs, maxLines) && FileLines(f) <= maxLines && a.currentLines + FileLines(f) > maxLines
    ensures Inv(Step(a, f, maxLines), fs + [f], maxLines)
  {
    TotalSingle(f);
    CloseChunk(a.chunks, a.current, maxLines);
    assert Flatten(a.chunks + [a.current]) + [f] == fs + [f];
  }

  /** A file that fits joins the current chunk. */
  lemma StepFits(a: Acc, fs: seq<FileDiff>, f: FileDiff, maxLines: int)
    requires Inv(a, fs, maxLines) && FileLines(f) <= maxLines && a.currentLines + FileLines(f) <= maxLines
    ensures Inv(Step(a, f, maxLines), fs + [f], maxLines)
  {
    TotalAppend(a.current, f);
    assert |a.current| > 0 ==> (a.current + [f])[0] == a.current[0];
    assert Flatten(a.chunks) + (a.current + [f]) == fs + [f];
  }

  lemma {:induction false} RunInv(fs: seq<FileDiff>, maxLines: int)
    ensures Inv(Run(fs, maxLines), fs, maxLines)
    decreases |fs|
  {
    if |fs| > 0 {
      RunInv(fs[..|fs| - 1], maxLines);
      RunStepInv(fs, maxLines);
    }
  }

  /** Consuming one more file keeps the invariant. */
  lemma RunStepInv(fs: seq<FileDiff>, maxLines: int)
    requires |fs| > 0 && Inv(Run(fs[..|fs| - 1], maxLines), fs[..|fs| - 1], maxLines)
    ensures Inv(Run(fs, maxLines), fs, maxLines)
  {
    var init := fs[..|fs| - 1];
    var last := fs[|fs| - 1];
    assert init + [last] == fs;
    assert Run(fs, maxLines) == Step(Run(init, maxLines), last, maxLines);
    StepInv(Run(init, maxLines), init, last, fs, maxLines);
  }

  /** A chunk within the bound holds no file over the bound. */
  lemma {:induction false} BoundedFiles(c: seq<FileDiff>, j: nat)
    requires j < |c|
    ensures FileLines(c[j]) <= TotalLines(c)
    decreases |c|
  {
    if j < |c| - 1 {
      BoundedFiles(c[..|c| - 1], j);
    }
  }

  /**
   * The partition reproduces the input in order, has no empty chunk, keeps
   * every chunk to the bound unless it is one oversized file, puts each
   * oversized file alone and breaks greedily.
   */
  lemma PartitionCorrect(fs: seq<FileDiff>, maxLines: int)
    ensures Flatten(Partition(fs, maxLines)) == fs
    ensures NonEmptyChunks(Partition(fs, maxLines))
    ensures WithinBound(Partition(fs, maxLines), maxLines)
    ensures OversizedAlone(Partition(fs, maxLines), maxLines)
    ensures GreedyBreaks(Partition(fs, maxLines), maxLines)
    ensures Partition(fs, maxLines) == [] <==> fs == []
  {
    PartitionClosed(fs, maxLines);
    BoundedChunksIsolateOversized(Partition(fs, maxLines), maxLines);
  }

  /** The final flush keeps the invariants of the closed chunks. */
  lemma PartitionClosed(fs: seq<FileDiff>, maxLines: int)
    ensures Flatten(Partition(fs, maxLines)) == fs
    ensures NonEmptyChunks(Partition(fs, maxLines))
    ensures WithinBound(Partition(fs, maxLines), maxLines)
    ensures GreedyBreaks(Partition(fs, maxLines), maxLines)
    ensures Partition(fs, maxLines) == [] <==> fs == []
  {
    var a := Run(fs, maxLines);
    RunInv(fs, maxLines);
    var r := Partition(fs, maxLines);
    if |a.current| > 0 {
      CloseChunk(a.chunks, a.current, maxLines);
    }
    if r == [] {
      assert Flatten(r) == [];
    }
  }

  /** In chunks that keep to the bound or are single oversized files, every oversized file is alone. */
  lemma BoundedChunksIsolateOversized(cs: seq<seq<FileDiff>>, maxLines: int)
    requires WithinBound(cs, maxLines)
    ensures OversizedAlone(cs, maxLines)
  {
    forall k, j | 0 <= k < |cs| && 0 <= j < |cs[k]| && FileLines(cs[k][j]) > maxLines
      ensures cs[k] == [cs[k][j]]
    {
      BoundedFiles(cs[k], j);
    }
  }

  /**
   * `partition_diffs`: walks the files once, closing the current chunk when an
   * oversized file arrives or the next file would exceed `maxLines`.
   */
  method PartitionDiffs(fileDiffs: seq<FileDiff>, maxLines: int) returns (chunks: seq<seq<FileDiff>>)
    ensures chunks == Partition(fileDiffs, maxLines)
  {
    chunks := [];
    var current: seq<FileDiff> := [];
    var currentLines := 0;
    for i := 0 to |fileDiffs|
      invariant Acc(chunks, current, currentLines) == Run(fileDiffs[..i], maxLines)
    {
      assert fileDiffs[..i + 1][..i] == fileDiffs[..i];
      var fileDiff := fileDiffs[i];
      var fileLines := FileLines(fileDiff);
      if fileLines > maxLines {
        if |current| > 0 {
          chunks := chunks + [current];
          current := [];
          currentLines := 0;
        }
        chunks := chunks + [[fileDiff]];
        continue;
      }
      if currentLines + fileLines > maxLines {
        chunks := chunks + [current];
        current := [fileDiff];
        currentLines := fileLines;
      } else {
        current := current + [fileDiff];
        currentLines := currentLines + fileLines;
      }
    }
    assert fileDiffs[..|fileDiffs|] == fileDiffs;
    if |current| > 0 {
      chunks := chunks + [current];
    }
  }

  // ---------------------------------------------------------------------------
  // Worked examples

  /**
   * Files of 120, 50 and 40 lines under a bound of 150 give `[[A], [B, C]]`:
   * 120 + 50 crosses the bound, while 50 + 40 stays within it.
   */
  lemma ExampleGreedy(a: FileDiff, b: FileDiff, c: FileDiff)
    requires FileLines(a) == 120 && FileLines(b) == 50 && FileLines(c) == 40
    ensures Partition([a, b, c], 150) == [[a], [b, c]]
  {
    assert [a, b, c][..2] == [a, b];
    assert [a, b][..1] == [a];
    assert [a][..0] == [];
    TotalSingle(a);
    assert Run([a], 150) == Acc([], [a], 120);
    assert Run([a, b], 150) == Acc([[a]], [b], 50);
    assert Run([a, b, c], 150) == Acc([[a]], [b, c], 90);
  }

  /** A file that brings the running total exactly to the bound stays in the chunk. */
  lemma ExampleExactFit(a: FileDiff, b: FileDiff)
    requires FileLines(a) == 100 && FileLines(b) == 50
    ensures Partition([a, b], 150) == [[a, b]]
  {
    assert [a, b][..1] == [a];
    assert [a][..0] == [];
    assert Run([a], 150) == Acc([], [a], 100);
    assert Run([a, b], 150) == Acc([], [a, b], 150);
  }
}
