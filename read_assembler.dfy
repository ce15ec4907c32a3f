/**
 * What the operator's four-position line cycle builds (Mapper.java lines
 * 72-87), stated over the whole stream of lines it has been given: lines
 * 4k, 4k+1 and 4k+3 make the k-th read, line 4k+2 (the `+` separator of a
 * FASTQ record) is skipped, and a trailing incomplete group builds nothing.
 */
module ReadAssembler {
  import opened SamRecord

  /** The reads built from a stream of lines, in order. */
  function Assemble(lines: seq<string>): (built: seq<Read>)
    ensures |built| == |lines| / 4
    decreases |lines|
  {
    if |lines| < 4 then [] else [Read(lines[0], lines[1], lines[3])] + Assemble(lines[4..])
  }

  /** The k-th read is made of lines 4k, 4k+1 and 4k+3. */
  lemma {:induction false} AssembleAt(lines: seq<string>, k: nat)
    requires k < |lines| / 4
    ensures Assemble(lines)[k] == Read(lines[4 * k], lines[4 * k + 1], lines[4 * k + 3])
    decreases k
  {
    if k > 0 {
      AssembleAt(lines[4..], k - 1);
    }
  }

  /**
   * One more line completes a read exactly when it lands on position 3 of the
   * cycle; that read is made of the group's lines at positions 0, 1 and 3.
   */
  lemma {:induction false} AssembleSnoc(lines: seq<string>, line: string)
    ensures Assemble(lines + [line])
         == Assemble(lines) + if |lines| % 4 == 3
                              then [Read(lines[|lines| - 3], lines[|lines| - 2], line)]
                              else []
    decreases |lines|
  {
    var l := lines + [line];
    if |lines| >= 4 {
      assert l[4..] == lines[4..] + [line];
      AssembleSnoc(lines[4..], line);
    }
  }

  /** Reads of whole groups followed by more lines: the groups' reads come first. */
  lemma AssembleAppend(lines: seq<string>, more: seq<string>)
    requires |lines| % 4 == 0
    ensures Assemble(lines + more) == Assemble(lines) + Assemble(more)
  {
    var l := lines + more;
    var a, b, c := Assemble(l), Assemble(lines), Assemble(more);
    assert |a| == |b| + |c|;
    forall k | 0 <= k < |a|
      ensures a[k] == (b + c)[k]
    {
      AssembleAt(l, k);
      if k >= |b| {
        var j := k - |b|;
        assert 4 * k == |lines| + 4 * j;
        AssembleAt(more, j);
      } else {
        AssembleAt(lines, k);
      }
    }
  }

  /** A trailing group of fewer than four lines builds no read. */
  lemma AssemblePartialTail(lines: seq<string>, tail: seq<string>)
    requires |lines| % 4 == 0 && |tail| < 4
    ensures Assemble(lines + tail) == Assemble(lines)
  {
    AssembleAppend(lines, tail);
    assert Assemble(tail) == [];
  }

  /** The separator line of a group changes no read. */
  lemma AssembleIgnoresSeparator(lines: seq<string>, i: nat, other: string)
    requires i < |lines| && i % 4 == 2
    ensures Assemble(lines[i := other]) == Assemble(lines)
  {
    var a, b := Assemble(lines[i := other]), Assemble(lines);
    forall k | 0 <= k < |a|
      ensures a[k] == b[k]
    {
      assert 4 * k != i && 4 * k + 1 != i && 4 * k + 3 != i;
      AssembleAt(lines, k);
      AssembleAt(lines[i := other], k);
    }
  }
}
