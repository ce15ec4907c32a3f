# FASTQ single-end mapper operator, modelled in Dafny

This project models the `Mapper` operator of a streaming DNA-mapping
application. The operator:

- receives a FASTQ file one text line at a time on its input port;
- assembles every four lines into a short read (name, bases, qualities);
- aligns each read against a BWA-indexed reference genome with BWA-MEM;
- emits one tab-separated, SAM-like record per primary alignment region on its output port.

`activate` loads the reference index and the aligner. `deactivate` releases them and logs a summary.

The model follows the code of
`src/main/java/com/singlefastqmapper/Mapper.java` and is organised as follows:

- `FastqMapper` (mapper.dfy) holds the operator itself. It is a class `Mapper` with the source's fields and these methods:
  - `Process` is the input port's handler. It dispatches on the line's position in the cycle to `StoreName`, `StoreBases`, `SkipSeparator` and `CompleteRead`. `CompleteRead` builds the read (`BuildRead`) and then aligns it (`AlignRead`).
  - `EmitAlignments` is the try block that walks the aligner's regions.
  - `Activate`, `Deactivate`, and the getters and setters.
  - Ghost state records every line processed so far. The invariant `Valid` ties the fields to those lines. The pending name and bases are the current group's lines 0 and 1, and the qualities are line 3 of the last complete group. The last read is the last one assembled. Unless an exception escaped, the output is exactly the records of every read assembled, in order.
- `ReadAssembler` states, over the whole stream of lines, what the four-position cycle builds.
- `Alignment` states which regions produce records (only primaries, in the aligner's order) and what a run of reads emits.
- `SamRecord` is the record formatter. A partner tab splitter and a decimal parser (`Decimal`) show that each record whose name, bases, qualities, chromosome and CIGAR hold no tab splits back into exactly its twelve columns.
- `RefPath` models `File.getName` on a Unix path, which gives the recorded reference name.
- `CounterOverflow` models the source's 32-bit `static int` counter exactly as written (see Findings).
- `MapperRuns` (scenarios.dfy) states what whole streams of lines emit.

Inputs that come from outside the operator are parameters:

- The aligner (native BWA-MEM) is a function `Read -> AlignOutcome`, supplied to the constructor. It gives the regions, or `IOFailure` for an `IOException`.
- The file-system test `refFile.isFile()` is a boolean argument of `Activate`.
- The outcome of the native `new BwaIndex` / `new BwaMem` loads is an `IndexLoad` argument.

The code has no degraded mode after a failed reference load. If the path is not a regular file, `index` and `mem` stay `null`. The first complete read then makes `mem.align` throw a `NullPointerException` (outcome `NullAligner`), and `deactivate` throws one at `index.close()` (outcome `NullIndex`). The same happens when only the aligner failed to load (`NullMem`). The model follows the code: it does not assume that an invalid reference silently yields no output.

## Model

| member | source | states |
|---|---|---|
| `FastqMapper.Mapper.constructor` | src/main/java/com/singlefastqmapper/Mapper.java:43-54 | The operator starts with the counter at 0, no lines seen, no read, no output, the flag `isValidRefPath` true and no index or aligner handle. The invariant holds. |
| `FastqMapper.Mapper.Valid` | src/main/java/com/singlefastqmapper/Mapper.java:43-54 | The operator's invariant. The counter equals the number of lines processed. The pending name and bases are the current group's lines 0 and 1, and the qualities are the last group's line 3. The last read is the last one assembled. Unless an exception escaped, the output is exactly the records of every assembled read, in order. |
| `FastqMapper.Mapper.Process` | src/main/java/com/singlefastqmapper/Mapper.java:70-110 | Every line advances the counter by exactly one, whatever its content and position. Position 0 sets only the name. Position 1 sets only the bases. Position 2 changes nothing else. At position 3 the qualities are set, and the read is built from the group's lines 0, 1 and 3 and appended to the assembled reads. With no aligner the outcome is a `NullPointerException`. Otherwise the output grows by exactly that read's records, and an `IOException` adds none. The invariant tying output to all assembled reads is preserved. |
| `FastqMapper.Mapper.StoreName` | src/main/java/com/singlefastqmapper/Mapper.java:74-76 | At position 0 the line becomes the pending name, the counter advances, and the invariant is kept. |
| `FastqMapper.Mapper.StoreBases` | src/main/java/com/singlefastqmapper/Mapper.java:78-80 | At position 1 the line becomes the pending bases, the counter advances, and the invariant is kept. |
| `FastqMapper.Mapper.SkipSeparator` | src/main/java/com/singlefastqmapper/Mapper.java:82-83 | At position 2 only the counter advances, and the invariant is kept. |
| `FastqMapper.Mapper.CompleteRead` | src/main/java/com/singlefastqmapper/Mapper.java:85-108 | At position 3 the read is (name line, bases line, this line), and the assembled reads grow by it. With `mem` null the exception escapes and nothing is emitted. Otherwise the output grows by exactly that read's records, and the outcome says whether `align` threw. The invariant is kept. |
| `FastqMapper.Mapper.BuildRead` | src/main/java/com/singlefastqmapper/Mapper.java:85-87 | The qualities line is stored and the counter advances before any alignment. The read is built from the group's lines 0, 1 and 3 and is the last assembled read. The invariant holds once that read's records are emitted. |
| `FastqMapper.Mapper.AlignRead` | src/main/java/com/singlefastqmapper/Mapper.java:89-106 | For a built read whose records are still owed: with `mem` null the `NullPointerException` escapes, nothing is emitted and the output is released from the invariant. Otherwise the output grows by exactly the read's records, an `IOException` adds none, and the invariant is restored. |
| `FastqMapper.Mapper.EmitAlignments` | src/main/java/com/singlefastqmapper/Mapper.java:89-106 | The loop emits, in the aligner's order, one record per region whose secondary index is negative and none for the others. An `IOException` emits nothing. |
| `FastqMapper.Mapper.Activate` | src/main/java/com/singlefastqmapper/Mapper.java:114-161 | `refName` becomes the base name of the path in every case. `isValidRefPath` is cleared exactly when the path is not a regular file. `index` is assigned only for a regular file whose index loads, and `mem` only when the aligner loads too. |
| `FastqMapper.Mapper.Deactivate` | src/main/java/com/singlefastqmapper/Mapper.java:183-206 | A null `index` throws before anything is released. Otherwise the index is closed. A null `mem` then throws. Otherwise the aligner is disposed, and the flag chooses between the summary and the invalid-path notice. |
| `FastqMapper.Mapper.GetRefFilePath` | src/main/java/com/singlefastqmapper/Mapper.java:163-166 | Returns the configured reference path. |
| `FastqMapper.Mapper.SetRefFilePath` | src/main/java/com/singlefastqmapper/Mapper.java:168-171 | Sets the reference path and nothing else. |
| `FastqMapper.Mapper.GetRefName` | src/main/java/com/singlefastqmapper/Mapper.java:173-176 | Returns the recorded reference name. |
| `FastqMapper.Mapper.SetRefName` | src/main/java/com/singlefastqmapper/Mapper.java:178-181 | Sets the reference name and nothing else. |
| `FastqMapper.StepName` | src/main/java/com/singlefastqmapper/Mapper.java:74-76 | Storing a position-0 line as the name keeps the fields consistent with the lines seen. |
| `FastqMapper.StepBases` | src/main/java/com/singlefastqmapper/Mapper.java:78-80 | Storing a position-1 line as the bases keeps the fields consistent with the lines seen. |
| `FastqMapper.StepSeparator` | src/main/java/com/singlefastqmapper/Mapper.java:82-83 | A position-2 line keeps the fields consistent without changing any of them. |
| `FastqMapper.StepQualities` | src/main/java/com/singlefastqmapper/Mapper.java:85-88 | A position-3 line completes the read from the pending name and bases. The output stays consistent when the read's records are appended, or when an exception ends the run. |
| `FastqMapper.PendingWrap` | src/main/java/com/singlefastqmapper/Mapper.java:85-86 | When the qualities line arrives, the pending name and bases are exactly the group's first two lines. |
| `FastqMapper.DeliveredSnoc` | src/main/java/com/singlefastqmapper/Mapper.java:86-106 | A newly built read becomes the last read, and its own records are appended after those of earlier reads. |
| `FastqMapper.CrashReleasesOutput` | src/main/java/com/singlefastqmapper/Mapper.java:70-110 | After an exception has escaped `process`, the fields stay consistent with the lines seen whatever the output holds. |
| `ReadAssembler.Assemble` | src/main/java/com/singlefastqmapper/Mapper.java:72-87 | After n lines exactly n / 4 reads have been built. |
| `ReadAssembler.AssembleAt` | src/main/java/com/singlefastqmapper/Mapper.java:74-86 | The k-th read has name line 4k, bases line 4k+1 and qualities line 4k+3. |
| `ReadAssembler.AssembleSnoc` | src/main/java/com/singlefastqmapper/Mapper.java:72-87 | One more line completes a read exactly when it lands on position 3. That read is built from the group's positions 0, 1 and 3. |
| `ReadAssembler.AssembleAppend` | src/main/java/com/singlefastqmapper/Mapper.java:72-87 | The reads of whole groups come first, followed by the reads of the lines after them. |
| `ReadAssembler.AssemblePartialTail` | src/main/java/com/singlefastqmapper/Mapper.java:72-87 | A trailing group of fewer than four lines builds no read. |
| `ReadAssembler.AssembleIgnoresSeparator` | src/main/java/com/singlefastqmapper/Mapper.java:82-83 | Replacing any position-2 line changes no read. |
| `Alignment.Primaries` | src/main/java/com/singlefastqmapper/Mapper.java:91-94 | The kept regions are at most the aligner's regions, and each is primary and one of them. |
| `Alignment.IsPrimary` | src/main/java/com/singlefastqmapper/Mapper.java:93-94 | A region is kept exactly when `getSecondary()` is negative. Its effect is stated by `Alignment.PrimariesCount`. |
| `Alignment.PrimariesAppend` | src/main/java/com/singlefastqmapper/Mapper.java:91-94 | Filtering commutes with concatenation, so kept regions are never reordered. |
| `Alignment.PrimariesCount` | src/main/java/com/singlefastqmapper/Mapper.java:91-94 | A secondary region is never kept. A primary region is kept exactly as many times as the aligner returned it, so nothing is deduplicated. |
| `Alignment.MapRead` | src/main/java/com/singlefastqmapper/Mapper.java:91-100 | The records of one read, one per kept region in the aligner's order. Its properties are stated by `Alignment.MapReadOrigin`, `Alignment.MapReadAppend` and `Alignment.MapReadSnoc`. |
| `Alignment.MapReadOrigin` | src/main/java/com/singlefastqmapper/Mapper.java:91-100 | A read never yields more records than the aligner returned regions. Every record is the formatting of one of the aligner's primary regions. |
| `Alignment.ReadOutput` | src/main/java/com/singlefastqmapper/Mapper.java:89-106 | The records one assembled read contributes: those of its regions, or none when `align` throws an `IOException`. Its properties are stated by `Alignment.FailedReadEmitsNothing` and `FastqMapper.Mapper.EmitAlignments`. |
| `Alignment.MapReadAppend` | src/main/java/com/singlefastqmapper/Mapper.java:91-100 | A read's records for regions a then b are the records for a followed by those for b. |
| `Alignment.MapReadSnoc` | src/main/java/com/singlefastqmapper/Mapper.java:91-100 | One more region adds its one record if it is primary and nothing if it is secondary. |
| `Alignment.MapReads` | src/main/java/com/singlefastqmapper/Mapper.java:86-106 | The records of a run of assembled reads, read after read. Its properties are stated by `Alignment.MapReadsAppend` and `Alignment.MapReadsSnoc`. |
| `Alignment.MapReadsAppend` | src/main/java/com/singlefastqmapper/Mapper.java:86-106 | Across reads, records follow read-assembly order. |
| `Alignment.MapReadsSnoc` | src/main/java/com/singlefastqmapper/Mapper.java:86-106 | One more assembled read appends its own records and nothing else. |
| `Alignment.FailedReadEmitsNothing` | src/main/java/com/singlefastqmapper/Mapper.java:89-106 | A read whose alignment throws an `IOException` leaves no trace in the output, and the reads around it are unaffected. |
| `SamRecord.SplitTabs` | src/main/java/com/singlefastqmapper/Mapper.java:99 | The column splitter, partner of the formatter, gives at least one field, and no field holds a tab. |
| `SamRecord.JoinSplit` | src/main/java/com/singlefastqmapper/Mapper.java:99 | Joining the pieces of a split line with tabs gives back the line. |
| `SamRecord.SplitJoin` | src/main/java/com/singlefastqmapper/Mapper.java:99 | Splitting tab-free fields joined by tabs gives back exactly those fields. |
| `SamRecord.FormatRecord` | src/main/java/com/singlefastqmapper/Mapper.java:99 | The emitted line. Its meaning is stated by `SamRecord.FormatRecordJoinsFields` and `SamRecord.FormatRecordColumns`. |
| `SamRecord.FormatRecordJoinsFields` | src/main/java/com/singlefastqmapper/Mapper.java:99 | A record is name, AS, chrom, pos, MAPQ, CIGAR, `*`, `0`, `0`, bases, qualities and `NM:i:` followed by NM, joined by single tabs. |
| `SamRecord.FormatRecordColumns` | src/main/java/com/singlefastqmapper/Mapper.java:96-99 | When name, bases, qualities, chrom and CIGAR hold no tab, a record splits into exactly 12 columns, in order. The text columns are equal to their sources, and the numeric columns parse back to AS, pos, MAPQ and NM. |
| `SamRecord.RecordSplitsIntoFields` | src/main/java/com/singlefastqmapper/Mapper.java:99 | When the text columns hold no tab, splitting a record at its tabs gives back exactly its twelve columns. |
| `SamRecord.FieldsReadBack` | src/main/java/com/singlefastqmapper/Mapper.java:96-99 | The twelve columns hold the name, bases and qualities, the region's chrom and CIGAR, the constants `*`, `0`, `0`, and numerals that parse back to AS, pos, MAPQ and NM. |
| `SamRecord.TagReadBack` | src/main/java/com/singlefastqmapper/Mapper.java:99 | The last column is `NM:i:` followed by a numeral that parses back to NM. |
| `SamRecord.ExampleRecord` | src/main/java/com/singlefastqmapper/Mapper.java:99 | A primary hit of read `@r1` (bases `ACGT`, qualities `IIII`) at chr1:100 with AS 36, MAPQ 60, CIGAR `36M` and NM 0 gives the expected record. |
| `Decimal.NatToString` | src/main/java/com/singlefastqmapper/Mapper.java:99 | A non-negative value renders as a non-empty string of digits with no leading zero. |
| `Decimal.IntToString` | src/main/java/com/singlefastqmapper/Mapper.java:99 | An integer column is non-empty and tab-free, and starts with `-` exactly when the value is negative. |
| `Decimal.NatToStringValue` | src/main/java/com/singlefastqmapper/Mapper.java:99 | The digits rendered for n have the value n. |
| `Decimal.IntToStringRoundTrip` | src/main/java/com/singlefastqmapper/Mapper.java:99 | Parsing a rendered integer column gives back the value. |
| `Decimal.IntToStringInjective` | src/main/java/com/singlefastqmapper/Mapper.java:99 | Distinct values render as distinct columns. |
| `RefPath.StripTrailingSeparators` | src/main/java/com/singlefastqmapper/Mapper.java:127 | The normalised path is no longer than the path and does not end in a separator. |
| `RefPath.StripTrailingSeparatorsSpec` | src/main/java/com/singlefastqmapper/Mapper.java:127 | Normalising removes a run of trailing separators and nothing else. |
| `RefPath.LastComponent` | src/main/java/com/singlefastqmapper/Mapper.java:128 | The name holds no separator and is no longer than the path. |
| `RefPath.LastComponentSpec` | src/main/java/com/singlefastqmapper/Mapper.java:128 | The name is the path's suffix after its last separator, or the whole path when there is none. |
| `RefPath.BaseName` | src/main/java/com/singlefastqmapper/Mapper.java:127-128 | The recorded reference name never holds a separator. |
| `RefPath.BaseNameOfChild` | src/main/java/com/singlefastqmapper/Mapper.java:127-128 | The name of `dir/name` is `name`, with or without a trailing separator. |
| `RefPath.BaseNameOfPlainName` | src/main/java/com/singlefastqmapper/Mapper.java:127-128 | A path with no separator is its own name. |
| `CounterOverflow.Wrap32` | src/main/java/com/singlefastqmapper/Mapper.java:45 | Java `int` arithmetic stays in 32 bits, is exact inside the range, and `++` wraps 2147483647 to -2147483648. |
| `CounterOverflow.JavaRem` | src/main/java/com/singlefastqmapper/Mapper.java:72 | Java's `%`: with the truncating quotient q, q * b + r equals the dividend. The remainder lies strictly between -b and b and takes the sign of the dividend. |
| `CounterOverflow.JavaStep` | src/main/java/com/singlefastqmapper/Mapper.java:72-88 | For a non-negative counter below 2147483647, the counter goes up by one and its remainder by 4 moves to the next case, 3 wrapping to 0. At 2147483647 the counter wraps to -2147483648, whose remainder is 0. A negative counter with remainder 0 runs case 0 and goes up by one to remainder -3. A negative remainder matches no case, and the counter is stuck. |
| `CounterOverflow.JavaCounterAfter` | src/main/java/com/singlefastqmapper/Mapper.java:45-88 | The Java counter after n lines is always a 32-bit `int`. |
| `CounterOverflow.CounterExactBeforeOverflow` | src/main/java/com/singlefastqmapper/Mapper.java:72-88 | Up to 2^31 - 1 lines, the 32-bit counter equals the number of lines. |
| `CounterOverflow.CounterSticksAfterOverflow` | src/main/java/com/singlefastqmapper/Mapper.java:72-88 | From line 2^31 + 1 on, the counter stays at -2147483647, whose remainder by 4 is -3, so every later line is dropped. |
| `MapperRuns.TwoRecords` | src/main/java/com/singlefastqmapper/Mapper.java:70-106 | Eight lines with one primary hit per read emit exactly two records, built from lines 0, 1, 3 and 4, 5, 7, in that order. |
| `MapperRuns.SecondaryFiltered` | src/main/java/com/singlefastqmapper/Mapper.java:91-100 | For regions primary, secondary, primary, only the two primaries are emitted, in order. |
| `MapperRuns.PartialTailEmitsNothing` | src/main/java/com/singlefastqmapper/Mapper.java:72-87 | Lines after the last complete record emit nothing. |
| `MapperRuns.StreamsConcatenate` | src/main/java/com/singlefastqmapper/Mapper.java:72-106 | Two streams of whole records, one after the other, emit their records one after the other. |

## Left out

- Loading the native JNI library, and the internals of `BwaIndex`, `BwaMem` and `mem.align`. These are native code. The aligner is a function supplied to the constructor, and the load outcomes are an argument of `Activate`.
- `refFile.isFile()`. The file-system test is an argument of `Activate`.
- The `Date` timers, all `LOG` output and `printStackTrace`. They depend on the wall clock and on logging. `Deactivate` reports which message it would log as a `Teardown` value.
- The charset conversion of `String.getBytes` and `new String(byte[])`. Bases and qualities are kept as the same characters.
- The operator framework's ports. Emitting is appending to the `outputs` sequence.
- What the framework does after a `NullPointerException` escapes `process`. The model records it with the ghost flag `crashed` and stops relating the output to the reads.
- The commented-out FASTA header parsing in `activate`. It is not executed.
- `Application.java`. It only wires the operators together and is not part of this model.
- `@NotNull` on `refFilePath`. An unset path is modelled as the empty string.
- `FastqMapper.Mapper.Process`: the counter is an unbounded per-instance `nat`. The source's counter is a `static int` shared by every instance in the JVM and wraps at 2^31. The wrap is modelled separately in `CounterOverflow` (see Findings). Sharing between instances is not modelled.
- `FastqMapper.Mapper.Process`: requires that the aligner has not been disposed. The source does not guard against a call to `process` after `deactivate`.
- `RefPath.BaseName`: models `File.getName` for Unix paths only. It does not model other platforms' separators.

## Findings

| source | as written | input that shows it | evidently intended | confidence | as-written member | corrected member |
|---|---|---|---|---|---|---|
| src/main/java/com/singlefastqmapper/Mapper.java:45 | The counter is a 32-bit `static int`, advanced by `++counter` and dispatched by `switch(counter % 4)` with no `default`. | A stream of 2^31 + 1 = 2147483649 lines. The counter wraps to -2147483648, then advances to -2147483647, whose Java remainder by 4 is -3. From then on no case matches, the counter never advances, and no further read is built. | Every line advances the four-position cycle, however long the stream. | not executed | `CounterOverflow.CounterSticksAfterOverflow` | `FastqMapper.Mapper.Process` |
