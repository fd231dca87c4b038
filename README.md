# Chunked log extraction by date

The model covers `src/extract_logs.js`. That program finds every line of a log file that starts with a
target date (`YYYY-MM-DD`). It cuts the file into chunks of 10 MiB and filters each chunk in its own
worker thread. Each worker posts its list of matching lines back to the main thread. There, a
`'message'` handler writes each line, followed by `'\n'`, to the output file and counts it.

The model has four modules:

- `Text` (`text.dfy`): the string operations the program relies on, with JavaScript's semantics.
  - `Split` is `split('\n')`, and it keeps empty pieces.
  - `Join` is `join('\n')`.
  - `StartsWith` is `startsWith`.
  - Split and join are proved inverse to each other. The number of pieces is proved to be one
    more than the number of newlines.
- `Worker` (`worker.dfy`): `processChunk`, written as a method with the source's loop. It is
  proved against `FilterByPrefix`, an order-preserving filter. A separate list of matching
  positions characterises that filter exactly.
- `Planner` (`planner.dfy`): the planning loop.
  - The loop computes `chunkEnd = min(chunkStart + chunkSize, fileSize)` and runs
    `ceil(fileSize / chunkSize)` times.
  - It is proved to produce ranges that tile the file. Each range is non-empty and at most one
    chunk long. Every range except the last is full.
  - Every offset lies in exactly one range.
  - `CeilDiv` is the chunk count, `NthRange` is the k-th range in closed form, and `Plan` lists
    the ranges. The loop's contract is stated against `Plan`.
- `Extract` (`extract.dfy`): the coordinator.
  - `OutputSink` is a class with the two pieces of state the handler updates: the text written
    so far and `matchCount`. Its `OnMessage` method is the handler.
  - `ChunkText` is the k-th chunk's text. `Batch` is what its worker posts, and `Batches` lists
    all of them in chunk order. `Emit` is the text the stream receives for one batch.
  - `ExtractLogsForDate` runs the whole pipeline sequentially. The order in which workers
    finish is a parameter, `arrival`, which is any permutation of the chunk positions.
  - The match count is proved to equal the total number of lines in all batches, for every
    arrival order.
  - Read back, the output is proved to be exactly the matched lines, in arrival order, with one
    `'\n'` after each.

The handler at src/extract_logs.js:76-81 writes each batch as soon as its worker's message
arrives, so batches appear in the output in the order the workers finish, not in chunk order.
The model follows that code. Only the match count and the multiset of batches are independent
of the arrival order. Within a batch, lines keep their order in the file.

Each chunk is split and filtered on its own (src/extract_logs.js:19-24, 62-69), and no text is
joined across a chunk boundary. The model keeps this and does not stitch lines. A boundary that
cuts a line has one of three outcomes:

- The line is lost when the cut falls inside its date (`Extract.StraddlingLineMissed`).
- The line is written truncated when the cut falls after its date (`Extract.TruncatedMatchKept`).
- A line is written that the file does not contain, when the cut falls just before a date in
  the middle of a line (`Extract.SpuriousMatch`).

A matching line that lies wholly inside one chunk is always in that chunk's batch
(`Extract.MatchInsideChunk`).

## Model

| member | source | states |
|---|---|---|
| Text.Split | src/extract_logs.js:19 | definition of `split('\n')`: the maximal newline-free pieces between delimiters, empty pieces included; it ensures there is always at least one piece |
| Text.StartsWith | src/extract_logs.js:23 | definition of `startsWith`: the line is at least as long as the prefix and begins with it |
| Text.SplitCount | src/extract_logs.js:19 | `split('\n')` yields exactly one more piece than the text has newlines, so empty pieces are kept |
| Text.SplitPiecesNewlineFree | src/extract_logs.js:19 | no piece produced by the split contains a newline |
| Text.SplitTrailingNewline | src/extract_logs.js:19 | text ending in '\n' splits with an empty last piece |
| Text.JoinSplit | src/extract_logs.js:19 | joining the pieces of a split with '\n' gives back the original text: splitting loses nothing |
| Text.SplitJoin | src/extract_logs.js:19 | splitting the '\n'-join of one or more newline-free pieces gives back exactly those pieces |
| Text.SplitNewlineFree | src/extract_logs.js:19 | a text without '\n' splits into just itself |
| Text.SplitAtNewline | src/extract_logs.js:19 | the text before the first '\n' is the first piece and the rest is split independently |
| Text.SplitConcat | src/extract_logs.js:19 | splitting text around any newline splits the two sides independently and concatenates the results |
| Text.FirstPiece | src/extract_logs.js:19 | newline-free text followed by nothing or by a newline is the first piece of the split |
| Text.PieceOfSplit | src/extract_logs.js:19 | a newline-free stretch bounded by newlines or by the ends of the text is one of the split's pieces |
| Worker.FilterByPrefix | src/extract_logs.js:22-26 | definition of the ordered filter the loop computes: the pieces that start with the prefix, in their original order; `MatchPositions` and `FilterSelects` characterise it |
| Worker.ProcessChunk | src/extract_logs.js:17-29 | the loop returns the ordered filter of the chunk's pieces by the target date; it has at most newline-count + 1 entries, each starting with the date and newline-free |
| Worker.MatchPositions | src/extract_logs.js:22-26 | the positions of matching pieces are in range and strictly increasing, and a position is listed exactly when its piece starts with the prefix |
| Worker.FilterSelects | src/extract_logs.js:22-26 | the k-th kept line is the piece at the k-th matching position, so the filter keeps exactly the matches, in file order |
| Worker.FilterSound | src/extract_logs.js:23-24 | every kept line starts with the target date, and no more lines are kept than there are pieces |
| Worker.FilterComplete | src/extract_logs.js:23-24 | every piece that starts with the target date is kept |
| Worker.FilterNoMatch | src/extract_logs.js:18-28 | when no piece matches, the result is the empty list |
| Worker.FilterAppend | src/extract_logs.js:22-26 | filtering the concatenation of two piece lists is the concatenation of their filters |
| Worker.FilterNewlineFree | src/extract_logs.js:19-24 | kept lines contain no newline |
| Planner.CeilDiv | src/extract_logs.js:54 | definition of `Math.ceil(fileSize / chunkSize)` on exact integers; `CeilDivIsCeiling` proves it is the ceiling |
| Planner.NthRange | src/extract_logs.js:63 | definition of the k-th range, [min(k * chunkSize, fileSize), min(k * chunkSize + chunkSize, fileSize)), with k * chunkSize built up as `ChunkOffset`; `NthRangeShape` and `CoveredExactlyOnce` state its properties |
| Planner.ChunkOffsetIsProduct | src/extract_logs.js:62-87 | `ChunkOffset(chunkSize, k)`, the value of `chunkStart` when iteration k < chunkCount begins, is k * chunkSize; after the last iteration `chunkStart` is fileSize instead, because line 63 caps `chunkEnd` |
| Planner.CeilDivIsCeiling | src/extract_logs.js:54 | `ceil(fileSize / chunkSize)` chunks reach the end of the file, and one fewer chunk does not |
| Planner.CeilDivSmall | src/extract_logs.js:54 | an empty file needs zero chunks, and a non-empty file no longer than one chunk needs exactly one |
| Planner.StartInside | src/extract_logs.js:62-63 | every planned chunk starts strictly inside the file |
| Planner.NthRangeShape | src/extract_logs.js:62-87 | the k-th range is non-empty and at most chunkSize long; a range that is not last is full and ends where the next starts; the last ends at the file size |
| Planner.RangesContiguous | src/extract_logs.js:62-88 | any list of the planned ranges is contiguous, every range is non-empty and at most chunkSize long, and all but the last are full |
| Planner.PlanEnds | src/extract_logs.js:54-63 | the first range starts at 0 and the last ends at fileSize; there are no ranges exactly when the file is empty |
| Planner.PlanShape | src/extract_logs.js:53-88 | the plan tiles [0, fileSize) with ranges of at most chunkSize, and only the last may be short |
| Planner.PlanChunks | src/extract_logs.js:54-88 | the loop builds the planned ranges, `ceil(fileSize / chunkSize)` of them, tiling the file, each non-empty and at most chunkSize long, and all but the last full |
| Planner.CoveredExactlyOnce | src/extract_logs.js:62-87 | an offset lies in the k-th range exactly when it is inside the file and k = offset / chunkSize: each byte is read by exactly one worker |
| Planner.ModAfterChunks | src/extract_logs.js:63 | adding whole chunks to an offset leaves its remainder modulo chunkSize unchanged |
| Planner.LastRangeLength | src/extract_logs.js:63 | the last range is fileSize % chunkSize long, or a full chunk when that remainder is zero |
| Extract.ChunkText | src/extract_logs.js:63-69 | definition of the k-th chunk's text: the file's characters in the k-th planned range; its ensures gives that range's length |
| Extract.Batch | src/extract_logs.js:35-37 | definition of the batch a worker posts for chunk k: `processChunk` of that chunk's text, that is, the ordered filter of its split |
| Extract.Batches | src/extract_logs.js:62-74 | definition of all batches in chunk order, one per planned chunk; its ensures gives their number, `ceil(fileSize / chunkSize)` |
| Extract.Emit | src/extract_logs.js:78 | definition of what the stream receives for a batch: each line followed by '\n', in order; `EmitIsJoin` and `EmitSplit` state its properties |
| Extract.OutputSink.constructor | src/extract_logs.js:58-59 | the stream starts empty and the count at zero |
| Extract.OutputSink.OnMessage | src/extract_logs.js:76-81 | the handler appends every posted line, in order and each followed by '\n', and adds the number of lines to matchCount |
| Extract.EmitAppend | src/extract_logs.js:77-78 | writing two lists of lines one after the other writes their concatenation |
| Extract.EmitIsJoin | src/extract_logs.js:78 | the text written for a batch is its lines joined by '\n', with one final '\n' |
| Extract.EmitSplit | src/extract_logs.js:78 | reading the written text back with split('\n') gives exactly the lines plus one trailing empty piece, and the text holds one '\n' per line |
| Extract.FlattenArrivedLength | src/extract_logs.js:77-79 | the lines written across the arrived batches are as many as the handler counts |
| Extract.FlattenLines | src/extract_logs.js:76-78 | lines that match and are newline-free in each batch stay so in the combined output |
| Extract.ArrivedLinesAppend | src/extract_logs.js:79 | counting two successive arrival sequences adds their counts |
| Extract.ArrivedLinesWithout | src/extract_logs.js:79 | taking one batch out of an arrival sequence lowers the count by exactly that batch's size |
| Extract.ArrivalOrderIrrelevant | src/extract_logs.js:76-81 | two arrival orders that hold the same batches give the same matchCount |
| Extract.ArrivedInChunkOrder | src/extract_logs.js:76-81 | when batches arrive in chunk order, matchCount is the total of their sizes |
| Extract.MultisetRemove | src/extract_logs.js:76-81 | removing the same batch from two permutations of each other leaves permutations of each other |
| Extract.ArrivalOrderBelow | src/extract_logs.js:62-76 | an arrival order only names chunks that were planned |
| Extract.ArrivalCount | src/extract_logs.js:76-91 | for every arrival order, once all workers have reported, matchCount is the total number of matched lines |
| Extract.DeliverOne | src/extract_logs.js:76-79 | delivering the next batch appends its emitted text to what was written before and adds its size to the count |
| Extract.BatchLines | src/extract_logs.js:17-37 | every line a worker posts starts with the target date and holds no '\n' |
| Extract.OutputReadsBack | src/extract_logs.js:76-81 | the output, read back line by line, is the matched lines in arrival order followed by one empty piece; it holds one '\n' per counted line, and every line starts with the target date |
| Extract.CountIsTotal | src/extract_logs.js:54-81 | matchCount is the total over all chunks for any arrival order; an empty file yields empty output and a count of zero |
| Extract.ExtractLogsForDate | src/extract_logs.js:45-93 | the sequential run writes exactly the matched lines of each chunk, batch by batch in arrival order, each followed by '\n'; matchCount is the total of matches and equals the output's number of newlines; an empty file gives "" and 0 |
| Extract.ExtractLogs | src/extract_logs.js:53-93 | with the fixed 10 MiB chunk size, the count is the total of matches and equals the output's number of newlines; a non-empty file of at most one chunk is written as all its matching lines in file order |
| Extract.SingleArrival | src/extract_logs.js:62-81 | with one worker, the only arrival order is that worker |
| Extract.SingleChunkBatch | src/extract_logs.js:54-69 | a non-empty file no longer than one chunk is one chunk, filtered as a whole |
| Extract.SingleChunk | src/extract_logs.js:54-81 | for a file no longer than one chunk, the output lines are all the matching lines of the file, in file order |
| Extract.FilterOneLine | src/extract_logs.js:19-24 | a single line, with or without its '\n', is kept exactly when it starts with the date |
| Extract.StraddlingLineMissed | src/extract_logs.js:62-69 | with 8-character chunks, the matching line "2024-01-01 A" that a chunk boundary cuts is matched by no worker: the whole-file filter finds it, but the batches hold zero lines |
| Extract.TruncatedMatchKept | src/extract_logs.js:62-69 | with 11-character chunks, the file's line "2024-01-01 A" is cut after the date, and the first chunk's batch is the truncated "2024-01-01 " |
| Extract.SpuriousMatch | src/extract_logs.js:62-69 | with 10-character chunks, the file "0123456789" + "2024-01-01" + " Z\n" has no matching line, yet the second chunk's batch is ["2024-01-01"] |
| Extract.MatchInsideChunk | src/extract_logs.js:62-69 | a matching line that lies wholly inside one planned chunk, between newlines or the chunk's ends, is in that chunk's batch |
| Extract.OneChunkExample | src/extract_logs.js:17-29 | for the file "2024-01-01 A\n2024-01-02 B\n2024-01-01 C\n" and target "2024-01-01", the filter gives the first and third lines and the output is "2024-01-01 A\n2024-01-01 C\n" |
| Extract.FirstAndThirdMatch | src/extract_logs.js:17-29 | of three lines where the first and third match, those two are kept and emitted in order |
| Extract.SplitThreeLines | src/extract_logs.js:19 | three newline-terminated lines split into those lines plus an empty piece |
| Extract.FilterFirstAndThird | src/extract_logs.js:22-26 | filtering four pieces of which the first and third match keeps exactly those two |
| Extract.EmitTwo | src/extract_logs.js:77-78 | writing two lines gives each followed by '\n' |

## Left out

- Worker threads, `postMessage` and the event loop are not modelled. The batches are computed
  one after another, and the nondeterministic completion order becomes the `arrival`
  parameter.
- File-system I/O is not modelled: `stat`, `open`, `read`, `mkdir`, the write stream and the
  output path. The file is an in-memory string, and the output is the text the stream receives.
- UTF-8 decoding of each chunk's buffer is not modelled. The file is a sequence of characters,
  so offsets are character offsets. In the source, a byte boundary can fall inside a
  multi-byte character; the model does not capture this.
- The command-line entry point is not modelled. This covers reading `process.argv`, the error
  for a missing date and the final console messages.
- The `'error'` handler and worker failures are not modelled.
- The source fixes the chunk size at 10 MiB, which is `Planner.ChunkSize`. `Extract.ExtractLogs`
  runs the pipeline with that constant. The planner and `Extract.ExtractLogsForDate` take any
  `chunkSize > 0`, so the boundary examples can use small chunks.
- `Math.ceil` of a floating-point quotient is modelled as exact integer ceiling division. Any
  rounding at file sizes beyond 2^53 is not modelled.
- Planner.PlanChunks: the source opens a file descriptor per chunk and never closes it. That
  leak is outside the model.
