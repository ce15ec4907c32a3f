/**
 * What whole streams of lines produce on the output port, stated over the
 * functions the operator's invariant ties its output to (the output is
 * MapReads(align, Assemble(lines)) until an exception escapes).
 */
module MapperRuns {
  import opened SamRecord
  import opened Alignment
  import opened ReadAssembler

  /** A hit: one primary region. */
  const Hit: Region := Region("chr1", 100, "36M", 60, 36, 0, -1)

  /**
   * Two complete FASTQ records with an aligner that finds one hit per read:
   * each read yields its record, in input order.
   */
  lemma TwoRecords(lines: seq<string>)
    requires |lines| == 8
    ensures MapReads(r => Regions([Hit]), Assemble(lines))
         == [FormatRecord(Read(lines[0], lines[1], lines[3]), Hit),
             FormatRecord(Read(lines[4], lines[5], lines[7]), Hit)]
  {
    var align: Read -> AlignOutcome := r => Regions([Hit]);
    var r0, r1 := Read(lines[0], lines[1], lines[3]), Read(lines[4], lines[5], lines[7]);
    AssembleAt(lines, 0);
    AssembleAt(lines, 1);
    var built := Assemble(lines);
    assert built == [r0] + [r1];
    assert Primaries([Hit]) == [Hit];
    MapReadsSnoc(align, [r0], r1);
    MapReadsSnoc(align, [], r0);
    assert [] + [r0] == [r0];
  }

  /**
   * A read whose aligner answer holds a secondary region between two
   * primaries: only the primaries are emitted, in the aligner's order.
   */
  lemma SecondaryFiltered(read: Read, p: Region, s: Region, q: Region)
    requires IsPrimary(p) && !IsPrimary(s) && IsPrimary(q)
    ensures MapRead(read, [p, s, q]) == [FormatRecord(read, p), FormatRecord(read, q)]
  {
    assert [p, s, q][..2] == [p, s];
    assert [p, s][..1] == [p];
    assert [p][..0] == [];
    assert Primaries([p]) == [p];
    assert Primaries([p, s]) == [p];
    assert Primaries([p, s, q]) == [p, q];
    var out := MapRead(read, [p, s, q]);
    assert |out| == 2 && out[0] == FormatRecord(read, p) && out[1] == FormatRecord(read, q);
  }

  /**
   * Lines after the last complete record emit nothing: a stream of whole
   * records followed by fewer than four lines emits what the whole records do.
   */
  lemma PartialTailEmitsNothing(align: Read -> AlignOutcome, lines: seq<string>, tail: seq<string>)
    requires |lines| % 4 == 0 && |tail| < 4
    ensures MapReads(align, Assemble(lines + tail)) == MapReads(align, Assemble(lines))
  {
    AssemblePartialTail(lines, tail);
  }

  /** Two streams of whole records, one after the other, emit their records one after the other. */
  lemma StreamsConcatenate(align: Read -> AlignOutcome, a: seq<string>, b: seq<string>)
    requires |a| % 4 == 0
    ensures MapReads(align, Assemble(a + b)) == MapReads(align, Assemble(a)) + MapReads(align, Assemble(b))
  {
    AssembleAppend(a, b);
    MapReadsAppend(align, Assemble(a), Assemble(b));
  }
}
