/**
 * The Mapper operator (Mapper.java): its input port assembles FASTQ reads from
 * lines, aligns each read with BWA-MEM, and emits one record per primary
 * region; activate loads the reference index and deactivate releases it.
 */
module FastqMapper {
  import opened Wrappers
  import opened SamRecord
  import opened Alignment
  import opened ReadAssembler
  import opened RefPath

  /** A BwaIndex handle: the reference file it was loaded from, and whether close() ran. */
  datatype BwaIndex = BwaIndex(refFile: string, closed: bool)

  /** A BwaMem handle bound to the index of `refFile`, and whether dispose() ran. */
  datatype BwaMem = BwaMem(refFile: string, disposed: bool)

  /** How the native loads in activate end: `new BwaIndex` or `new BwaMem` may throw an IOException. */
  datatype IndexLoad = Loaded | IndexIOError | MemIOError

  /** How one call of `process` ends. */
  datatype LineOutcome =
    | Buffered      // positions 0, 1 and 2: a field was stored or the line skipped
    | Aligned       // position 3: the read was aligned and its primary records emitted
    | AlignIOError  // position 3: mem.align threw an IOException, caught and printed
    | NullAligner   // position 3: mem is null, so mem.align throws a NullPointerException

  /** How `deactivate` ends. */
  datatype Teardown =
    | Summary            // both handles released, timing summary logged
    | InvalidPathNotice  // both handles released, "file not found" logged
    | NullIndex          // index is null: index.close() throws a NullPointerException
    | NullMem            // mem is null: index closed, then mem.dispose() throws one

  /** The pending fields hold the lines of the current group (and `qual` the last complete one's). */
  ghost predicate Pending(lines: seq<string>, seqid: string, bases: string, qual: string) {
    var n := |lines|;
    && (n % 4 >= 1 ==> seqid == lines[n - n % 4])
    && (n % 4 >= 2 ==> bases == lines[n - n % 4 + 1])
    && (n >= 4 ==> qual == lines[n - n % 4 - 1])
  }

  /**
   * `read` is the last read built, and unless an exception escaped, the
   * output is the records of every read built, in order.
   */
  ghost predicate Delivered(align: Read -> AlignOutcome, built: seq<Read>, read: Option<Read>,
                            outputs: seq<string>, crashed: bool)
  {
    && read == (if built == [] then None else Some(built[|built| - 1]))
    && (!crashed ==> outputs == MapReads(align, built))
  }

  /** What the operator's fields hold after `lines`. */
  ghost predicate Consistent(align: Read -> AlignOutcome, lines: seq<string>, seqid: string,
                             bases: string, qual: string, read: Option<Read>,
                             outputs: seq<string>, crashed: bool)
  {
    Pending(lines, seqid, bases, qual) && Delivered(align, Assemble(lines), read, outputs, crashed)
  }

  /** Position 0 of the cycle: the line is the read's name. */
  lemma StepName(align: Read -> AlignOutcome, lines: seq<string>, seqid: string,
                 bases: string, qual: string, read: Option<Read>,
                 outputs: seq<string>, crashed: bool, line: string)
    requires |lines| % 4 == 0
    requires Consistent(align, lines, seqid, bases, qual, read, outputs, crashed)
    ensures Consistent(align, lines + [line], line, bases, qual, read, outputs, crashed)
  {
    var n, l := |lines|, lines + [line];
    AssembleSnoc(lines, line);
    assert Assemble(l) == Assemble(lines) + [] == Assemble(lines);
    assert (n + 1) % 4 == 1 && n + 1 - (n + 1) % 4 == n;
    assert l[n] == line && (n >= 4 ==> l[n - 1] == lines[n - 1]);
  }

  /** Position 1 of the cycle: the line is the read's bases. */
  lemma StepBases(align: Read -> AlignOutcome, lines: seq<string>, seqid: string,
                  bases: string, qual: string, read: Option<Read>,
                  outputs: seq<string>, crashed: bool, line: string)
    requires |lines| % 4 == 1
    requires Consistent(align, lines, seqid, bases, qual, read, outputs, crashed)
    ensures Consistent(align, lines + [line], seqid, line, qual, read, outputs, crashed)
  {
    var n, l := |lines|, lines + [line];
    AssembleSnoc(lines, line);
    assert Assemble(l) == Assemble(lines) + [] == Assemble(lines);
    assert (n + 1) % 4 == 2 && n + 1 - (n + 1) % 4 == n - 1;
    assert l[n] == line && l[n - 1] == lines[n - 1] && (n >= 4 ==> l[n - 2] == lines[n - 2]);
  }

  /** Position 2 of the cycle: the separator line changes no field. */
  lemma StepSeparator(align: Read -> AlignOutcome, lines: seq<string>, seqid: string,
                      bases: string, qual: string, read: Option<Read>,
                      outputs: seq<string>, crashed: bool, line: string)
    requires |lines| % 4 == 2
    requires Consistent(align, lines, seqid, bases, qual, read, outputs, crashed)
    ensures Consistent(align, lines + [line], seqid, bases, qual, read, outputs, crashed)
  {
    var n, l := |lines|, lines + [line];
    AssembleSnoc(lines, line);
    assert Assemble(l) == Assemble(lines) + [] == Assemble(lines);
    assert (n + 1) % 4 == 3 && n + 1 - (n + 1) % 4 == n - 2;
    assert l[n - 2] == lines[n - 2] && l[n - 1] == lines[n - 1] && (n >= 4 ==> l[n - 3] == lines[n - 3]);
  }

  /** The qualities line completes the group: the pending name and bases are its first two lines. */
  lemma PendingWrap(lines: seq<string>, seqid: string, bases: string, qual: string, line: string)
    requires |lines| % 4 == 3 && Pending(lines, seqid, bases, qual)
    ensures seqid == lines[|lines| - 3] && bases == lines[|lines| - 2]
    ensures Pending(lines + [line], seqid, bases, line)
  {
    var n, l := |lines|, lines + [line];
    assert (n + 1) % 4 == 0;
    assert l[n] == line;
  }

  /** A newly built read becomes the last read and appends its own records. */
  lemma DeliveredSnoc(align: Read -> AlignOutcome, built: seq<Read>, read: Option<Read>,
                      outputs: seq<string>, crashed: bool, r: Read)
    requires Delivered(align, built, read, outputs, crashed)
    ensures Delivered(align, built + [r], Some(r), outputs + ReadOutput(align, r), crashed)
  {
    MapReadsSnoc(align, built, r);
  }

  /**
   * Position 3 of the cycle: the line is the read's qualities, the read is
   * built, and the fields are consistent once its records extend the output.
   */
  lemma StepQualities(align: Read -> AlignOutcome, lines: seq<string>, seqid: string,
                      bases: string, qual: string, read: Option<Read>,
                      outputs: seq<string>, crashed: bool, line: string)
    requires |lines| % 4 == 3
    requires Consistent(align, lines, seqid, bases, qual, read, outputs, crashed)
    ensures var l, r := lines + [line], Read(seqid, bases, line);
      && Assemble(l) == Assemble(lines) + [r]
      && Consistent(align, l, seqid, bases, line, Some(r), outputs + ReadOutput(align, r), crashed)
  {
    PendingWrap(lines, seqid, bases, qual, line);
    AssembleSnoc(lines, line);
    DeliveredSnoc(align, Assemble(lines), read, outputs, crashed, Read(seqid, bases, line));
  }

  /**
   * Once an exception has escaped, the output is no longer tied to the reads:
   * whatever it holds, the fields stay consistent.
   */
  lemma CrashReleasesOutput(align: Read -> AlignOutcome, lines: seq<string>, seqid: string,
                            bases: string, qual: string, read: Option<Read>,
                            outputs: seq<string>, crashed: bool, other: seq<string>)
    requires Consistent(align, lines, seqid, bases, qual, read, outputs, crashed)
    ensures Consistent(align, lines, seqid, bases, qual, read, other, true)
  {
  }

  class Mapper {
    var refFilePath: string
    var refName: string
    var isValidRefPath: bool
    var index: Option<BwaIndex>
    var mem: Option<BwaMem>
    var counter: nat
    var seqid: string
    /** The field `seq` of the source (a reserved word here). */
    var bases: string
    var qual: string
    var read: Option<Read>
    /** Everything emitted on the output port, in order. */
    var outputs: seq<string>
    /** What BWA-MEM does with a read against the configured reference. */
    const align: Read -> AlignOutcome

    /** Every line the input port has processed, in order. */
    ghost var lines: seq<string>
    /** Set once `process` has thrown a NullPointerException. */
    ghost var crashed: bool

    /** The fields agree with the lines processed so far (see Consistent). */
    ghost predicate Valid()
      reads this`counter, this`seqid, this`bases, this`qual, this`read, this`outputs
      reads this`lines, this`crashed
    {
      counter == |lines| && Consistent(align, lines, seqid, bases, qual, read, outputs, crashed)
    }

    constructor (align: Read -> AlignOutcome)
      ensures Valid()
      ensures this.align == align && refFilePath == "" && refName == ""
      ensures isValidRefPath && index == None && mem == None
      ensures counter == 0 && lines == [] && read == None && outputs == [] && !crashed
    {
      this.align := align;
      refFilePath, refName := "", "";
      isValidRefPath := true;
      index, mem := None, None;
      counter := 0;
      seqid, bases, qual := "", "", "";
      read := None;
      outputs := [];
      lines := [];
      crashed := false;
    }

    method GetRefFilePath() returns (path: string)
      ensures path == refFilePath
    {
      path := refFilePath;
    }

    method SetRefFilePath(path: string)
      modifies this`refFilePath
      ensures refFilePath == path
    {
      refFilePath := path;
    }

    method GetRefName() returns (name: string)
      ensures name == refName
    {
      name := refName;
    }

    method SetRefName(name: string)
      modifies this`refName
      ensures refName == name
    {
      refName := name;
    }

    /**
     * The input port's handler. Every line advances the counter by one; the
     * line's position in the cycle decides what it does. At position 3 the
     * read is built and, when the aligner exists, one record per primary
     * region is emitted in the aligner's order.
     */
    method Process(line: string) returns (outcome: LineOutcome)
      requires Valid()
      requires mem.None? || !mem.value.disposed
      modifies this`counter, this`seqid, this`bases, this`qual, this`read, this`outputs
      modifies this`lines, this`crashed
      ensures Valid()
      ensures counter == old(counter) + 1 && lines == old(lines) + [line]
      ensures old(counter) % 4 == 0 ==> seqid == line && bases == old(bases)
      ensures old(counter) % 4 == 1 ==> bases == line && seqid == old(seqid)
      ensures old(counter) % 4 != 3 ==>
        && outcome == Buffered && qual == old(qual) && read == old(read)
        && outputs == old(outputs) && crashed == old(crashed)
      ensures old(counter) % 4 == 2 ==> seqid == old(seqid) && bases == old(bases)
      ensures old(counter) % 4 == 3 ==>
        && seqid == old(seqid) && bases == old(bases) && qual == line
        && read == Some(Read(old(lines)[old(counter) - 3], old(lines)[old(counter) - 2], line))
        && Assemble(lines) == Assemble(old(lines)) + [read.value]
      ensures old(counter) % 4 == 3 && mem.None? ==>
        outcome == NullAligner && outputs == old(outputs) && crashed
      ensures old(counter) % 4 == 3 && mem.Some? ==>
        && crashed == old(crashed)
        && outputs == old(outputs) + ReadOutput(align, read.value)
        && outcome == if align(read.value).IOFailure? then AlignIOError else Aligned
    {
      var position := counter % 4;
      if position == 0 {
        StoreName(line);
        outcome := Buffered;
      } else if position == 1 {
        StoreBases(line);
        outcome := Buffered;
      } else if position == 2 {
        SkipSeparator(line);
        outcome := Buffered;
      } else {
        outcome := CompleteRead(line);
      }
    }

    /** Position 0 of the cycle: the line is kept as the read's name. */
    method StoreName(line: string)
      requires Valid() && counter % 4 == 0
      modifies this`counter, this`seqid, this`lines
      ensures Valid()
      ensures counter == old(counter) + 1 && lines == old(lines) + [line] && seqid == line
    {
      StepName(align, lines, seqid, bases, qual, read, outputs, crashed, line);
      lines := lines + [line];
      seqid := line;
      counter := counter + 1;
    }

    /** Position 1 of the cycle: the line is kept as the read's bases. */
    method StoreBases(line: string)
      requires Valid() && counter % 4 == 1
      modifies this`counter, this`bases, this`lines
      ensures Valid()
      ensures counter == old(counter) + 1 && lines == old(lines) + [line] && bases == line
    {
      StepBases(align, lines, seqid, bases, qual, read, outputs, crashed, line);
      lines := lines + [line];
      bases := line;
      counter := counter + 1;
    }

    /** Position 2 of the cycle: the separator line only advances the counter. */
    method SkipSeparator(line: string)
      requires Valid() && counter % 4 == 2
      modifies this`counter, this`lines
      ensures Valid()
      ensures counter == old(counter) + 1 && lines == old(lines) + [line]
    {
      StepSeparator(align, lines, seqid, bases, qual, read, outputs, crashed, line);
      lines := lines + [line];
      counter := counter + 1;
    }

    /**
     * The fields hold a complete read `r` whose records are still owed to the
     * output: they are consistent with the lines once those records are appended.
     */
    ghost predicate Owes(r: Read)
      reads this`counter, this`seqid, this`bases, this`qual, this`read, this`outputs
      reads this`lines, this`crashed
    {
      && counter == |lines| && read == Some(r)
      && Consistent(align, lines, seqid, bases, qual, read, outputs + ReadOutput(align, r), crashed)
    }

    /**
     * Position 3 of the cycle: the line is kept as the qualities, the read is
     * built from the group's name, bases and qualities, and the aligner's
     * verdict on it decides the output.
     */
    method CompleteRead(line: string) returns (outcome: LineOutcome)
      requires Valid() && counter % 4 == 3
      requires mem.None? || !mem.value.disposed
      modifies this`counter, this`qual, this`read, this`outputs, this`lines, this`crashed
      ensures Valid()
      ensures counter == old(counter) + 1 && lines == old(lines) + [line] && qual == line
      ensures read == Some(Read(old(lines)[old(counter) - 3], old(lines)[old(counter) - 2], line))
      ensures Assemble(lines) == Assemble(old(lines)) + [read.value]
      ensures mem.None? ==> outcome == NullAligner && outputs == old(outputs) && crashed
      ensures mem.Some? ==>
        && crashed == old(crashed)
        && outputs == old(outputs) + ReadOutput(align, read.value)
        && outcome == if align(read.value).IOFailure? then AlignIOError else Aligned
    {
      var r := BuildRead(line);
      outcome := AlignRead(r);
    }

    /**
     * Lines 89-106 for a built read: `mem.align` throws a NullPointerException
     * when there is no aligner; otherwise the try block emits its records.
     */
    method AlignRead(r: Read) returns (outcome: LineOutcome)
      requires Owes(r)
      modifies this`outputs, this`crashed
      ensures Valid()
      ensures mem.None? ==> outcome == NullAligner && outputs == old(outputs) && crashed
      ensures mem.Some? ==>
        && crashed == old(crashed)
        && outputs == old(outputs) + ReadOutput(align, r)
        && outcome == if align(r).IOFailure? then AlignIOError else Aligned
    {
      if mem.None? {
        CrashReleasesOutput(align, lines, seqid, bases, qual, read, outputs + ReadOutput(align, r), crashed, outputs);
        outcome := NullAligner;
        crashed := true;
      } else {
        outcome := EmitAlignments(r);
      }
    }

    /**
     * Lines 85-87: the qualities are stored, the read is built from the
     * pending name and bases, and the counter advances, before any alignment.
     */
    method BuildRead(line: string) returns (r: Read)
      requires Valid() && counter % 4 == 3
      modifies this`counter, this`qual, this`read, this`lines
      ensures Owes(r)
      ensures counter == old(counter) + 1 && lines == old(lines) + [line] && qual == line
      ensures r == Read(old(lines)[old(counter) - 3], old(lines)[old(counter) - 2], line)
      ensures Assemble(lines) == Assemble(old(lines)) + [r]
    {
      PendingWrap(lines, seqid, bases, qual, line);
      StepQualities(align, lines, seqid, bases, qual, read, outputs, crashed, line);
      lines := lines + [line];
      qual := line;
      r := Read(seqid, bases, qual);
      read := Some(r);
      counter := counter + 1;
    }

    /**
     * The try block of the input port's handler: align the read, skip every
     * secondary region, emit one record per primary region in the aligner's
     * order; an IOException is caught and emits nothing.
     */
    method EmitAlignments(r: Read) returns (outcome: LineOutcome)
      modifies this`outputs
      ensures outputs == old(outputs) + ReadOutput(align, r)
      ensures outcome == if align(r).IOFailure? then AlignIOError else Aligned
    {
      match align(r)
      case IOFailure =>
        outcome := AlignIOError;
      case Regions(rs) =>
        var i := 0;
        while i < |rs|
          invariant 0 <= i <= |rs|
          invariant outputs == old(outputs) + MapRead(r, rs[..i])
        {
          MapReadSnoc(r, rs[..i], rs[i]);
          assert rs[..i + 1] == rs[..i] + [rs[i]];
          if rs[i].secondary >= 0 {
            i := i + 1;
            continue;
          }
          outputs := outputs + [FormatRecord(r, rs[i])];
          i := i + 1;
        }
        assert rs[..|rs|] == rs;
        outcome := Aligned;
    }

    /**
     * Loads the reference. The name is always the path's base name; the flag
     * is cleared exactly when the path is not a regular file; the handles are
     * assigned only for a regular file, each only if its own load succeeded.
     */
    method Activate(isFile: bool, load: IndexLoad)
      modifies this`refName, this`isValidRefPath, this`index, this`mem
      ensures refName == BaseName(refFilePath)
      ensures isValidRefPath == (old(isValidRefPath) && isFile)
      ensures index == if isFile && load != IndexIOError
                       then Some(BwaIndex(refFilePath, false)) else old(index)
      ensures mem == if isFile && load == Loaded
                     then Some(BwaMem(refFilePath, false)) else old(mem)
    {
      SetRefName(BaseName(refFilePath));
      if isFile {
        if load != IndexIOError {
          index := Some(BwaIndex(refFilePath, false));
          if load == Loaded {
            mem := Some(BwaMem(refFilePath, false));
          }
        }
      } else {
        isValidRefPath := false;
      }
    }

    /**
     * Releases the handles: index.close() then mem.dispose(), each throwing a
     * NullPointerException when its handle was never assigned. Only after both
     * does the flag choose between the summary and the invalid-path notice.
     */
    method Deactivate() returns (t: Teardown)
      modifies this`index, this`mem
      ensures old(index).None? ==> t == NullIndex && index == old(index) && mem == old(mem)
      ensures old(index).Some? ==> index == Some(old(index).value.(closed := true))
      ensures old(index).Some? && old(mem).None? ==> t == NullMem && mem == old(mem)
      ensures old(index).Some? && old(mem).Some? ==>
        && mem == Some(old(mem).value.(disposed := true))
        && t == if isValidRefPath then Summary else InvalidPathNotice
    {
      if index.None? {
        return NullIndex;
      }
      index := Some(index.value.(closed := true));
      if mem.None? {
        return NullMem;
      }
      mem := Some(mem.value.(disposed := true));
      t := if isValidRefPath then Summary else InvalidPathNotice;
    }
  }
}
