/**
 * The per-chunk filter run by each worker thread (`processChunk`): split the
 * chunk's text on newlines and keep, in order, the pieces that start with the
 * target date.
 */
module Worker {
  import opened Text

  /** The pieces of `lines` that start with `prefix`, in their original order. */
  function FilterByPrefix(lines: seq<string>, prefix: string): seq<string>
  {
    if |lines| == 0 then []
    else
      var last := lines[|lines| - 1];
      FilterByPrefix(lines[..|lines| - 1], prefix) + (if StartsWith(last, prefix) then [last] else [])
  }

  /** The positions in `lines` of the pieces that start with `prefix`, ascending. */
  function MatchPositions(lines: seq<string>, prefix: string): (idx: seq<nat>)
    ensures forall k :: 0 <= k < |idx| ==> idx[k] < |lines|
    ensures forall k, m :: 0 <= k < m < |idx| ==> idx[k] < idx[m]
    ensures forall i :: 0 <= i < |lines| ==> (StartsWith(lines[i], prefix) <==> i in idx)
  {
    if |lines| == 0 then []
    else
      var n := |lines| - 1;
      var front := MatchPositions(lines[..n], prefix);
      assert forall i :: 0 <= i < n ==> lines[..n][i] == lines[i];
      front + (if StartsWith(lines[n], prefix) then [n] else [])
  }

  /**
   * The filter is exactly an ordered selection: its k-th element is the piece at
   * the k-th matching position, and the matching positions are precisely those
   * whose piece starts with the prefix.
   */
  lemma {:induction false} FilterSelects(lines: seq<string>, prefix: string)
    ensures |FilterByPrefix(lines, prefix)| == |MatchPositions(lines, prefix)|
    ensures forall k :: 0 <= k < |FilterByPrefix(lines, prefix)| ==>
              FilterByPrefix(lines, prefix)[k] == lines[MatchPositions(lines, prefix)[k]]
  {
    if |lines| > 0 {
      var n := |lines| - 1;
      FilterSelects(lines[..n], prefix);
    }
  }

  /** Every kept piece starts with the prefix, and the filter never grows the list. */
  lemma {:induction false} FilterSound(lines: seq<string>, prefix: string)
    ensures |FilterByPrefix(lines, prefix)| <= |lines|
    ensures forall k :: 0 <= k < |FilterByPrefix(lines, prefix)| ==>
              StartsWith(FilterByPrefix(lines, prefix)[k], prefix)
  {
    if |lines| > 0 {
      FilterSound(lines[..|lines| - 1], prefix);
    }
  }

  /** Every piece that starts with the prefix is kept. */
  lemma {:induction false} FilterComplete(lines: seq<string>, prefix: string, i: nat)
    requires i < |lines| && StartsWith(lines[i], prefix)
    ensures lines[i] in FilterByPrefix(lines, prefix)
  {
    FilterSelects(lines, prefix);
    var idx := MatchPositions(lines, prefix);
    var k :| 0 <= k < |idx| && idx[k] == i;
    assert FilterByPrefix(lines, prefix)[k] == lines[i];
  }

  /** When no piece matches, the result is empty. */
  lemma {:induction false} FilterNoMatch(lines: seq<string>, prefix: string)
    requires forall i :: 0 <= i < |lines| ==> !StartsWith(lines[i], prefix)
    ensures FilterByPrefix(lines, prefix) == []
  {
    if |lines| > 0 {
      FilterNoMatch(lines[..|lines| - 1], prefix);
    }
  }

  /** Filtering newline-free pieces keeps them newline-free. */
  lemma {:induction false} FilterNewlineFree(lines: seq<string>, prefix: string)
    requires NewlineFree(lines)
    ensures NewlineFree(FilterByPrefix(lines, prefix))
  {
    if |lines| > 0 {
      FilterNewlineFree(lines[..|lines| - 1], prefix);
    }
  }

  /** Filtering commutes with concatenation. */
  lemma {:induction false} FilterAppend(a: seq<string>, b: seq<string>, prefix: string)
    ensures FilterByPrefix(a + b, prefix) == FilterByPrefix(a, prefix) + FilterByPrefix(b, prefix)
  {
    if |b| > 0 {
      var n := |b| - 1;
      assert (a + b)[..|a + b| - 1] == a + b[..n];
      FilterAppend(a, b[..n], prefix);
    } else {
      assert a + b == a;
    }
  }

  /**
   * `processChunk(chunkData, targetDate)`: split on '\n' and push each piece that
   * starts with `targetDate` onto the result.
   */
  method ProcessChunk(chunkData: string, targetDate: string) returns (logs: seq<string>)
    ensures logs == FilterByPrefix(Split(chunkData), targetDate)
    ensures |logs| <= NewlineCount(chunkData) + 1
    ensures forall k :: 0 <= k < |logs| ==> StartsWith(logs[k], targetDate) && Newline !in logs[k]
  {
    logs := [];
    var lines := Split(chunkData);
    for i := 0 to |lines|
      invariant logs == FilterByPrefix(lines[..i], targetDate)
    {
      assert lines[..i + 1][..i] == lines[..i];
      if StartsWith(lines[i], targetDate) {
        logs := logs + [lines[i]];
      }
    }
    assert lines[..|lines|] == lines;
    SplitCount(chunkData);
    SplitPiecesNewlineFree(chunkData);
    FilterSound(lines, targetDate);
    FilterNewlineFree(lines, targetDate);
  }
}
