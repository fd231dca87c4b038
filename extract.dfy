/**
 * The coordinator of `extractLogsForDate`, run sequentially: plan the chunks,
 * filter each chunk's text on its own, and hand each worker's batch to the
 * `'message'` handler, which writes every line followed by '\n' to the output
 * stream and counts it.  Batches reach the handler in the order the workers
 * finish, which is a parameter here (`arrival`, a permutation of the chunk
 * positions); no line is stitched across a chunk boundary.
 */
module Extract {
  import opened Text
  import opened Worker
  import opened Planner

  /** What the write stream receives for one batch: each line followed by one '\n'. */
  function Emit(logs: seq<string>): string
  {
    if |logs| == 0 then ""
    else Emit(logs[..|logs| - 1]) + logs[|logs| - 1] + [Newline]
  }

  /** The batches concatenated in order. */
  function Flatten(batches: seq<seq<string>>): seq<string>
  {
    if |batches| == 0 then []
    else Flatten(batches[..|batches| - 1]) + batches[|batches| - 1]
  }

  /** The total number of lines across the batches. */
  function TotalLines(batches: seq<seq<string>>): nat
  {
    if |batches| == 0 then 0
    else TotalLines(batches[..|batches| - 1]) + |batches[|batches| - 1]|
  }

  /** The chunk positions 0, 1, ..., n - 1. */
  function Indices(n: nat): (idx: seq<nat>)
    ensures |idx| == n
    ensures forall i :: 0 <= i < n ==> idx[i] == i
  {
    if n == 0 then [] else Indices(n - 1) + [n - 1]
  }

  /** `order` lists every chunk position of `n` exactly once: a possible order of worker completion. */
  predicate IsArrivalOrder(order: seq<nat>, n: nat)
  {
    multiset(order) == multiset(Indices(n))
  }

  /** The batches in the order given by `order`. */
  function Arranged(batches: seq<seq<string>>, order: seq<nat>): (r: seq<seq<string>>)
    requires forall j :: 0 <= j < |order| ==> order[j] < |batches|
    ensures |r| == |order|
    ensures forall j :: 0 <= j < |order| ==> r[j] == batches[order[j]]
  {
    seq(|order|, j requires 0 <= j < |order| => batches[order[j]])
  }

  /** The text of the k-th planned chunk of `file`. */
  function ChunkText(file: string, chunkSize: nat, k: nat): (text: string)
    requires chunkSize > 0 && k < CeilDiv(|file|, chunkSize)
    ensures |text| == NthRange(|file|, chunkSize, k).Length()
  {
    var r := NthRange(|file|, chunkSize, k);
    file[r.start..r.end]
  }

  /** The batch the worker for the k-th chunk posts back. */
  function Batch(file: string, targetDate: string, chunkSize: nat, k: nat): seq<string>
    requires chunkSize > 0 && k < CeilDiv(|file|, chunkSize)
  {
    FilterByPrefix(Split(ChunkText(file, chunkSize, k)), targetDate)
  }

  /** All batches, in chunk order. */
  function Batches(file: string, targetDate: string, chunkSize: nat): (bs: seq<seq<string>>)
    requires chunkSize > 0
    ensures |bs| == CeilDiv(|file|, chunkSize)
  {
    var n := CeilDiv(|file|, chunkSize);
    seq(n, k requires 0 <= k < n => Batch(file, targetDate, chunkSize, k))
  }

  /**
   * The write stream and match counter that the `'message'` handlers of all
   * workers share.
   */
  class OutputSink {
    var written: string
    var matchCount: nat

    constructor ()
      ensures written == "" && matchCount == 0
    {
      written := "";
      matchCount := 0;
    }

    /** The `'message'` handler: write each line followed by '\n' and count it. */
    method OnMessage(logs: seq<string>)
      modifies this
      ensures written == old(written) + Emit(logs)
      ensures matchCount == old(matchCount) + |logs|
    {
      for i := 0 to |logs|
        invariant written == old(written) + Emit(logs[..i])
        invariant matchCount == old(matchCount) + i
      {
        assert logs[..i + 1][..i] == logs[..i];
        written := written + logs[i] + [Newline];
        matchCount := matchCount + 1;
      }
      assert logs[..|logs|] == logs;
    }
  }

  lemma {:induction false} EmitAppend(a: seq<string>, b: seq<string>)
    ensures Emit(a + b) == Emit(a) + Emit(b)
  {
    if |b| == 0 {
      assert a + b == a;
    } else {
      var n := |b| - 1;
      assert (a + b)[..|a + b| - 1] == a + b[..n];
      EmitAppend(a, b[..n]);
    }
  }

  /** The emitted text is the lines joined by '\n' with one final '\n'. */
  lemma {:induction false} EmitIsJoin(logs: seq<string>)
    ensures Emit(logs) == Join(logs + [""])
  {
    if |logs| > 0 {
      var n := |logs| - 1;
      EmitIsJoin(logs[..n]);
      assert logs[..n] + [logs[n]] == logs;
      if n == 0 {
        assert logs + [""] == [logs[0], ""];
        assert [logs[0], ""][1..] == [""];
      } else {
        JoinSnoc(logs[..n], "");
        JoinSnoc(logs[..n], logs[n]);
        JoinSnoc(logs, "");
      }
    }
  }

  /**
   * Reading the output back: splitting the emitted text on '\n' gives exactly
   * the written lines followed by the empty piece after the final '\n'.
   */
  lemma EmitSplit(logs: seq<string>)
    requires NewlineFree(logs)
    ensures Split(Emit(logs)) == logs + [""]
    ensures NewlineCount(Emit(logs)) == |logs|
  {
    EmitIsJoin(logs);
    assert NewlineFree(logs + [""]);
    SplitJoin(logs + [""]);
    SplitCount(Emit(logs));
  }

  /** The flattened arrivals hold as many lines as the handler counts. */
  lemma {:induction false} FlattenArrivedLength(batches: seq<seq<string>>, order: seq<nat>)
    requires forall j :: 0 <= j < |order| ==> order[j] < |batches|
    ensures |Flatten(Arranged(batches, order))| == ArrivedLines(batches, order)
  {
    if |order| > 0 {
      var n := |order| - 1;
      FlattenArrivedLength(batches, order[..n]);
      assert Arranged(batches, order)[..n] == Arranged(batches, order[..n]);
    }
  }

  /** Lines that all match and hold no '\n' still do once the batches are concatenated. */
  lemma {:induction false} FlattenLines(batches: seq<seq<string>>, targetDate: string)
    requires forall b, k :: 0 <= b < |batches| && 0 <= k < |batches[b]| ==>
               StartsWith(batches[b][k], targetDate) && Newline !in batches[b][k]
    ensures forall k :: 0 <= k < |Flatten(batches)| ==>
              StartsWith(Flatten(batches)[k], targetDate) && Newline !in Flatten(batches)[k]
  {
    if |batches| > 0 {
      FlattenLines(batches[..|batches| - 1], targetDate);
    }
  }

  /** The number of lines the handler counts when the batches arrive in the order `order`. */
  function ArrivedLines(batches: seq<seq<string>>, order: seq<nat>): nat
    requires forall j :: 0 <= j < |order| ==> order[j] < |batches|
  {
    if |order| == 0 then 0
    else ArrivedLines(batches, order[..|order| - 1]) + |batches[order[|order| - 1]]|
  }

  lemma {:induction false} ArrivedLinesAppend(batches: seq<seq<string>>, a: seq<nat>, b: seq<nat>)
    requires forall j :: 0 <= j < |a| ==> a[j] < |batches|
    requires forall j :: 0 <= j < |b| ==> b[j] < |batches|
    ensures ArrivedLines(batches, a + b) == ArrivedLines(batches, a) + ArrivedLines(batches, b)
  {
    if |b| == 0 {
      assert a + b == a;
    } else {
      var n := |b| - 1;
      assert (a + b)[..|a + b| - 1] == a + b[..n];
      ArrivedLinesAppend(batches, a, b[..n]);
    }
  }

  /** Taking the batch at position k out of an arrival order removes exactly its lines from the count. */
  lemma ArrivedLinesWithout(batches: seq<seq<string>>, o: seq<nat>, k: nat)
    requires forall j :: 0 <= j < |o| ==> o[j] < |batches|
    requires k < |o|
    ensures ArrivedLines(batches, o) == ArrivedLines(batches, o[..k] + o[k + 1..]) + |batches[o[k]]|
  {
    var front, back := o[..k], o[k + 1..];
    assert o == front + [o[k]] + back;
    ArrivedLinesAppend(batches, front + [o[k]], back);
    ArrivedLinesAppend(batches, front, [o[k]]);
    ArrivedLinesAppend(batches, front, back);
    assert ArrivedLines(batches, [o[k]]) == |batches[o[k]]| by {
      assert [o[k]][..0] == [];
    }
  }

  /**
   * The number of lines handled does not depend on the order in which the
   * batches arrive.
   */
  lemma {:induction false} ArrivalOrderIrrelevant(batches: seq<seq<string>>, o1: seq<nat>, o2: seq<nat>)
    requires forall j :: 0 <= j < |o1| ==> o1[j] < |batches|
    requires forall j :: 0 <= j < |o2| ==> o2[j] < |batches|
    requires multiset(o1) == multiset(o2)
    ensures ArrivedLines(batches, o1) == ArrivedLines(batches, o2)
  {
    if |o1| == 0 {
      assert |o2| == |multiset(o2)| == 0;
    } else {
      var n := |o1| - 1;
      var x := o1[n];
      assert x in multiset(o2);
      var k :| 0 <= k < |o2| && o2[k] == x;
      MultisetRemove(o1, o2, k);
      ArrivalOrderIrrelevant(batches, o1[..n], o2[..k] + o2[k + 1..]);
      ArrivedLinesWithout(batches, o2, k);
    }
  }

  /** Batches arriving in chunk order are counted as the total of their lines. */
  lemma {:induction false} ArrivedInChunkOrder(batches: seq<seq<string>>, n: nat)
    requires n <= |batches|
    ensures ArrivedLines(batches, Indices(n)) == TotalLines(batches[..n])
  {
    if n > 0 {
      ArrivedInChunkOrder(batches, n - 1);
      assert Indices(n)[..n - 1] == Indices(n - 1);
      assert batches[..n][..n - 1] == batches[..n - 1];
    }
  }

  lemma MultisetRemove(o1: seq<nat>, o2: seq<nat>, k: nat)
    requires multiset(o1) == multiset(o2) && |o1| > 0 && k < |o2| && o2[k] == o1[|o1| - 1]
    ensures multiset(o1[..|o1| - 1]) == multiset(o2[..k] + o2[k + 1..])
  {
    var n, x := |o1| - 1, o2[k];
    assert o1 == o1[..n] + [x];
    assert o2 == o2[..k] + [x] + o2[k + 1..];
    assert multiset(o1[..n]) == multiset(o1) - multiset{x};
    assert multiset(o2[..k] + o2[k + 1..]) == multiset(o2) - multiset{x};
  }

  lemma ArrivalOrderBelow(order: seq<nat>, n: nat)
    requires IsArrivalOrder(order, n)
    ensures forall j :: 0 <= j < |order| ==> order[j] < n
  {
    forall j | 0 <= j < |order|
      ensures order[j] < n
    {
      assert order[j] in multiset(Indices(n));
      var i :| 0 <= i < n && Indices(n)[i] == order[j];
    }
  }

  /**
   * `extractLogsForDate` run sequentially over an in-memory file: plan the
   * chunks, filter each chunk's text separately, then deliver the batches to
   * the `'message'` handler in the order `arrival`.  The count of matches is
   * the same for every arrival order; the output's lines are the matched lines
   * in arrival order, each followed by exactly one '\n', all starting with
   * `targetDate`.
   */
  method ExtractLogsForDate(file: string, targetDate: string, chunkSize: nat, arrival: seq<nat>)
    returns (output: string, matchCount: nat)
    requires chunkSize > 0
    requires IsArrivalOrder(arrival, CeilDiv(|file|, chunkSize))
    ensures var bs := Batches(file, targetDate, chunkSize);
            (forall j :: 0 <= j < |arrival| ==> arrival[j] < |bs|) &&
            output == Emit(Flatten(Arranged(bs, arrival))) &&
            Split(output) == Flatten(Arranged(bs, arrival)) + [""] &&
            matchCount == TotalLines(bs)
    ensures NewlineCount(output) == matchCount
    ensures forall k :: 0 <= k < |Split(output)| - 1 ==> StartsWith(Split(output)[k], targetDate)
    ensures |file| == 0 ==> output == "" && matchCount == 0
  {
    var ranges := PlanChunks(|file|, chunkSize);
    var batches: seq<seq<string>> := [];
    for i := 0 to |ranges|
      invariant |batches| == i
      invariant forall k :: 0 <= k < i ==> batches[k] == Batch(file, targetDate, chunkSize, k)
    {
      var chunkData := file[ranges[i].start..ranges[i].end];
      var logs := ProcessChunk(chunkData, targetDate);
      batches := batches + [logs];
    }
    assert batches == Batches(file, targetDate, chunkSize);
    ArrivalOrderBelow(arrival, |batches|);

    var sink := new OutputSink();
    for j := 0 to |arrival|
      invariant sink.written == Emit(Flatten(Arranged(batches, arrival[..j])))
      invariant sink.matchCount == ArrivedLines(batches, arrival[..j])
    {
      assert arrival[..j + 1][..j] == arrival[..j];
      DeliverOne(batches, arrival, j);
      sink.OnMessage(batches[arrival[j]]);
    }
    assert arrival[..|arrival|] == arrival;
    output, matchCount := sink.written, sink.matchCount;
    OutputReadsBack(file, targetDate, chunkSize, arrival);
    CountIsTotal(file, targetDate, chunkSize, arrival);
  }

  /**
   * `extractLogsForDate` with the source's fixed chunk size of 10 MiB: the
   * count is the total of matches, and a non-empty file no larger than one
   * chunk is filtered as a whole, its matching lines written in file order.
   */
  method ExtractLogs(file: string, targetDate: string, arrival: seq<nat>)
    returns (output: string, matchCount: nat)
    requires IsArrivalOrder(arrival, CeilDiv(|file|, ChunkSize))
    ensures matchCount == TotalLines(Batches(file, targetDate, ChunkSize))
    ensures NewlineCount(output) == matchCount
    ensures 0 < |file| <= ChunkSize ==> output == Emit(FilterByPrefix(Split(file), targetDate))
  {
    output, matchCount := ExtractLogsForDate(file, targetDate, ChunkSize, arrival);
    if 0 < |file| <= ChunkSize {
      CeilDivSmall(|file|, ChunkSize);
      SingleChunk(file, targetDate, ChunkSize, arrival);
    }
  }

  /** Delivering the next arriving batch appends its emitted text and adds its size. */
  lemma DeliverOne(batches: seq<seq<string>>, arrival: seq<nat>, j: nat)
    requires forall i :: 0 <= i < |arrival| ==> arrival[i] < |batches|
    requires j < |arrival|
    ensures Emit(Flatten(Arranged(batches, arrival[..j + 1])))
              == Emit(Flatten(Arranged(batches, arrival[..j]))) + Emit(batches[arrival[j]])
    ensures ArrivedLines(batches, arrival[..j + 1]) == ArrivedLines(batches, arrival[..j]) + |batches[arrival[j]]|
  {
    assert arrival[..j + 1][..j] == arrival[..j];
    var before := Arranged(batches, arrival[..j]);
    assert Arranged(batches, arrival[..j + 1]) == before + [batches[arrival[j]]];
    EmitAppend(Flatten(before), batches[arrival[j]]);
  }

  /** Every line of every batch starts with the target date and holds no '\n'. */
  lemma BatchLines(file: string, targetDate: string, chunkSize: nat)
    requires chunkSize > 0
    ensures var bs := Batches(file, targetDate, chunkSize);
            forall b, k :: 0 <= b < |bs| && 0 <= k < |bs[b]| ==>
              StartsWith(bs[b][k], targetDate) && Newline !in bs[b][k]
  {
    var bs := Batches(file, targetDate, chunkSize);
    forall b | 0 <= b < |bs|
      ensures forall k :: 0 <= k < |bs[b]| ==> StartsWith(bs[b][k], targetDate) && Newline !in bs[b][k]
    {
      var lines := Split(ChunkText(file, chunkSize, b));
      SplitPiecesNewlineFree(ChunkText(file, chunkSize, b));
      FilterSound(lines, targetDate);
      FilterNewlineFree(lines, targetDate);
    }
  }

  /**
   * The emitted text, read back line by line, gives the matched lines in
   * arrival order and nothing else, each starting with the target date.
   */
  lemma OutputReadsBack(file: string, targetDate: string, chunkSize: nat, arrival: seq<nat>)
    requires chunkSize > 0
    requires IsArrivalOrder(arrival, CeilDiv(|file|, chunkSize))
    ensures var bs := Batches(file, targetDate, chunkSize);
            (forall j :: 0 <= j < |arrival| ==> arrival[j] < |bs|) &&
            var output := Emit(Flatten(Arranged(bs, arrival)));
            Split(output) == Flatten(Arranged(bs, arrival)) + [""] &&
            NewlineCount(output) == ArrivedLines(bs, arrival) &&
            (forall k :: 0 <= k < |Split(output)| - 1 ==> StartsWith(Split(output)[k], targetDate))
  {
    var bs := Batches(file, targetDate, chunkSize);
    ArrivalOrderBelow(arrival, |bs|);
    var arranged := Arranged(bs, arrival);
    BatchLines(file, targetDate, chunkSize);
    FlattenLines(arranged, targetDate);
    EmitSplit(Flatten(arranged));
    FlattenArrivedLength(bs, arrival);
  }

  /**
   * Whatever the order in which the batches arrive, the handler counts the
   * total number of lines across all of them.
   */
  lemma ArrivalCount(batches: seq<seq<string>>, arrival: seq<nat>)
    requires IsArrivalOrder(arrival, |batches|)
    ensures forall j :: 0 <= j < |arrival| ==> arrival[j] < |batches|
    ensures ArrivedLines(batches, arrival) == TotalLines(batches)
  {
    ArrivalOrderBelow(arrival, |batches|);
    ArrivalOrderIrrelevant(batches, arrival, Indices(|batches|));
    ArrivedInChunkOrder(batches, |batches|);
    assert batches[..|batches|] == batches;
  }

  /** The count of matches is the total over all chunks; an empty file yields no output and a count of zero. */
  lemma CountIsTotal(file: string, targetDate: string, chunkSize: nat, arrival: seq<nat>)
    requires chunkSize > 0
    requires IsArrivalOrder(arrival, CeilDiv(|file|, chunkSize))
    ensures var bs := Batches(file, targetDate, chunkSize);
            (forall j :: 0 <= j < |arrival| ==> arrival[j] < |bs|) &&
            ArrivedLines(bs, arrival) == TotalLines(bs) &&
            (|file| == 0 ==> Emit(Flatten(Arranged(bs, arrival))) == "" && TotalLines(bs) == 0)
  {
    var bs := Batches(file, targetDate, chunkSize);
    ArrivalCount(bs, arrival);
    if |file| == 0 {
      CeilDivSmall(0, chunkSize);
      assert |arrival| == |multiset(arrival)| == 0;
      assert Arranged(bs, arrival) == [];
    }
  }

  /** The only arrival order of a single batch is that batch. */
  lemma SingleArrival(arrival: seq<nat>)
    requires IsArrivalOrder(arrival, 1)
    ensures arrival == [0]
  {
    assert Indices(1) == [0];
    assert |arrival| == |multiset(arrival)| == 1;
    assert arrival[0] in multiset(arrival);
    assert arrival == [arrival[0]];
  }

  /** A file that fits in one chunk is one batch: its matching lines in file order. */
  lemma SingleChunkBatch(file: string, targetDate: string, chunkSize: nat)
    requires 0 < |file| <= chunkSize
    ensures CeilDiv(|file|, chunkSize) == 1
    ensures Batches(file, targetDate, chunkSize) == [FilterByPrefix(Split(file), targetDate)]
  {
    CeilDivSmall(|file|, chunkSize);
    assert NthRange(|file|, chunkSize, 0) == ByteRange(0, |file|);
    assert ChunkText(file, chunkSize, 0) == file;
  }

  /**
   * A file that fits in one chunk is filtered as a whole: the output is every
   * line of the file that starts with the target date, in file order.
   */
  lemma SingleChunk(file: string, targetDate: string, chunkSize: nat, arrival: seq<nat>)
    requires 0 < |file| <= chunkSize && IsArrivalOrder(arrival, 1)
    ensures arrival == [0] && |Batches(file, targetDate, chunkSize)| == 1
    ensures Flatten(Arranged(Batches(file, targetDate, chunkSize), arrival))
              == FilterByPrefix(Split(file), targetDate)
  {
    SingleChunkBatch(file, targetDate, chunkSize);
    SingleArrival(arrival);
    var bs := Batches(file, targetDate, chunkSize);
    var arranged := Arranged(bs, arrival);
    assert arranged == bs;
    FlattenOne(bs[0]);
  }

  lemma FlattenOne(b: seq<string>)
    ensures Flatten([b]) == b
  {
    assert [b][..0] == [];
  }

  /**
   * The boundary policy: each chunk is filtered on its own, so a matching line
   * cut by a chunk boundary is not found.  With 8-character chunks the file
   * "2024-01-01 A\n" becomes "2024-01-" and "01 A\n", and neither piece
   * starts with "2024-01-01".
   */
  lemma StraddlingLineMissed(file: string, targetDate: string)
    requires file == "2024-01-01 A\n" && targetDate == "2024-01-01"
    ensures FilterByPrefix(Split(file), targetDate) == [file[..12]]
    ensures TotalLines(Batches(file, targetDate, 8)) == 0
  {
    var line := file[..12];
    assert StartsWith(line, targetDate) && Newline !in line && file == line + [Newline];
    FilterOneLine(line, targetDate);
    assert CeilDiv(|file|, 8) == 2;
    var bs := Batches(file, targetDate, 8);
    var head, tail := ChunkText(file, 8, 0), ChunkText(file, 8, 1);
    assert head == file[..8] && tail == file[8..12] + [Newline];
    assert !StartsWith(head, targetDate) && Newline !in head;
    assert !StartsWith(file[8..12], targetDate) && Newline !in file[8..12];
    FilterOneLine(head, targetDate);
    FilterOneLine(file[8..12], targetDate);
    assert bs == [[], []];
    assert TotalLines(bs[..1]) == 0 by {
      assert bs[..1][..0] == [];
    }
  }

  /**
   * A boundary that falls after the date keeps the line, truncated: with
   * 11-character chunks the file "2024-01-01 A\n" becomes "2024-01-01 " and
   * "A\n", and the first chunk's batch is the cut line "2024-01-01 ", which is
   * not the file's line "2024-01-01 A".
   */
  lemma TruncatedMatchKept(file: string, targetDate: string)
    requires file == "2024-01-01 A\n" && targetDate == "2024-01-01"
    ensures FilterByPrefix(Split(file), targetDate) == [file[..12]]
    ensures CeilDiv(|file|, 11) == 2
    ensures Batch(file, targetDate, 11, 0) == [file[..11]]
  {
    var line := file[..12];
    assert StartsWith(line, targetDate) && Newline !in line && file == line + [Newline];
    FilterOneLine(line, targetDate);
    assert CeilDiv(|file|, 11) == 2;
    assert NthRange(|file|, 11, 0) == ByteRange(0, 11);
    var head := ChunkText(file, 11, 0);
    assert head == file[..11];
    assert StartsWith(head, targetDate) && Newline !in head;
    FilterOneLine(head, targetDate);
  }

  /**
   * A boundary that falls just before a date inside a line makes a match that
   * no line of the file is: with 10-character chunks the file
   * "0123456789" + "2024-01-01" + " Z\n" has no matching line, but its second chunk is
   * "2024-01-01", which the worker keeps.
   */
  lemma SpuriousMatch(junk: string, targetDate: string, tail: string)
    requires junk == "0123456789" && targetDate == "2024-01-01" && tail == " Z\n"
    ensures FilterByPrefix(Split(junk + targetDate + tail), targetDate) == []
    ensures CeilDiv(|junk + targetDate + tail|, 10) == 3
    ensures Batch(junk + targetDate + tail, targetDate, 10, 1) == [targetDate]
  {
    var file := junk + targetDate + tail;
    var line := junk + targetDate + tail[..2];
    assert file == line + [Newline];
    assert !StartsWith(line, targetDate) by {
      assert line[0] == '0' != targetDate[0];
    }
    assert Newline !in line;
    FilterOneLine(line, targetDate);
    assert CeilDiv(|file|, 10) == 3;
    assert NthRange(|file|, 10, 1) == ByteRange(10, 20);
    var middle := ChunkText(file, 10, 1);
    assert middle == file[|junk|..|junk| + |targetDate|];
    assert middle == targetDate;
    assert StartsWith(middle, targetDate) && Newline !in middle;
    FilterOneLine(middle, targetDate);
  }

  /**
   * A matching line that lies wholly inside one planned chunk, delimited there
   * by newlines or by the chunk's ends, is in that chunk's batch.
   */
  lemma MatchInsideChunk(file: string, targetDate: string, chunkSize: nat, k: nat,
                         before: string, line: string, after: string)
    requires chunkSize > 0 && k < CeilDiv(|file|, chunkSize)
    requires ChunkText(file, chunkSize, k) == before + line + after
    requires Newline !in line && StartsWith(line, targetDate)
    requires before == [] || before[|before| - 1] == Newline
    requires after == [] || after[0] == Newline
    ensures line in Batch(file, targetDate, chunkSize, k)
  {
    var lines := Split(before + line + after);
    PieceOfSplit(before, line, after);
    var i :| 0 <= i < |lines| && lines[i] == line;
    FilterComplete(lines, targetDate, i);
  }

  /** A single line, with or without its terminating '\n', is kept exactly when it matches. */
  lemma FilterOneLine(line: string, targetDate: string)
    requires Newline !in line && |targetDate| > 0
    ensures FilterByPrefix(Split(line), targetDate) == if StartsWith(line, targetDate) then [line] else []
    ensures FilterByPrefix(Split(line + [Newline]), targetDate) == if StartsWith(line, targetDate) then [line] else []
  {
    SplitNewlineFree(line);
    assert [line][..0] == [];
    SplitAtNewline(line, "");
    assert line + [Newline] + "" == line + [Newline];
    assert [line, ""][..1] == [line];
  }

  /**
   * A one-chunk example: the file "2024-01-01 A\n2024-01-02 B\n2024-01-01 C\n"
   * read in one chunk with target "2024-01-01" produces exactly
   * "2024-01-01 A\n2024-01-01 C\n", two matches.
   */
  lemma OneChunkExample(a: string, b: string, c: string, targetDate: string)
    requires a == "2024-01-01 A" && b == "2024-01-02 B" && c == "2024-01-01 C"
    requires targetDate == "2024-01-01"
    ensures FilterByPrefix(Split(a + [Newline] + b + [Newline] + c + [Newline]), targetDate) == [a, c]
    ensures Emit([a, c]) == a + [Newline] + c + [Newline]
  {
    assert StartsWith(a, targetDate) && StartsWith(c, targetDate);
    assert !StartsWith(b, targetDate) by {
      assert b[9] == '2' != targetDate[9];
    }
    FirstAndThirdMatch(a, b, c, targetDate);
  }

  /** Three lines of which the first and third match: those two are emitted, in order. */
  lemma FirstAndThirdMatch(a: string, b: string, c: string, targetDate: string)
    requires Newline !in a && Newline !in b && Newline !in c && |targetDate| > 0
    requires StartsWith(a, targetDate) && !StartsWith(b, targetDate) && StartsWith(c, targetDate)
    ensures FilterByPrefix(Split(a + [Newline] + b + [Newline] + c + [Newline]), targetDate) == [a, c]
    ensures Emit([a, c]) == a + [Newline] + c + [Newline]
  {
    SplitThreeLines(a, b, c);
    FilterFirstAndThird(a, b, c, targetDate);
    EmitTwo(a, c);
  }

  lemma EmitTwo(a: string, c: string)
    ensures Emit([a, c]) == a + [Newline] + c + [Newline]
  {
    assert [a, c][..1] == [a] && [a][..0] == [];
    assert Emit([a]) == a + [Newline];
  }

  lemma {:induction false} SplitThreeLines(a: string, b: string, c: string)
    requires Newline !in a && Newline !in b && Newline !in c
    ensures Split(a + [Newline] + b + [Newline] + c + [Newline]) == [a, b, c, ""]
  {
    var third := c + [Newline];
    var second := b + [Newline] + third;
    SplitAtNewline(c, "");
    assert c + [Newline] + "" == third;
    SplitAtNewline(b, third);
    SplitAtNewline(a, second);
    assert a + [Newline] + second == a + [Newline] + b + [Newline] + c + [Newline];
  }

  lemma FilterFirstAndThird(a: string, b: string, c: string, targetDate: string)
    requires StartsWith(a, targetDate) && !StartsWith(b, targetDate) && StartsWith(c, targetDate)
    requires !StartsWith("", targetDate)
    ensures FilterByPrefix([a, b, c, ""], targetDate) == [a, c]
  {
    var pieces := [a, b, c, ""];
    assert pieces[..3] == [a, b, c] && pieces[..3][..2] == [a, b];
    assert pieces[..3][..2][..1] == [a] && pieces[..3][..2][..1][..0] == [];
    assert FilterByPrefix([a], targetDate) == [a];
    assert FilterByPrefix([a, b], targetDate) == [a];
  }
}
