/**
 * The alignment step of the operator (Mapper.java lines 89-106): the regions
 * the aligner returns for one read are walked in order, every secondary
 * region is skipped, and each primary region yields one formatted record.
 */
module Alignment {
  import opened SamRecord

  /** What `mem.align(read)` does: returns the regions, or throws an IOException. */
  datatype AlignOutcome = Regions(regions: seq<Region>) | IOFailure

  /** A region is kept exactly when its secondary index is negative. */
  predicate IsPrimary(a: Region) {
    a.secondary < 0
  }

  /** The primary regions of `rs`, in the order the aligner returned them. */
  function Primaries(rs: seq<Region>): (ps: seq<Region>)
    ensures |ps| <= |rs|
    ensures forall i :: 0 <= i < |ps| ==> IsPrimary(ps[i]) && ps[i] in rs
  {
    if rs == [] then []
    else
      var init := Primaries(rs[..|rs| - 1]);
      if IsPrimary(rs[|rs| - 1]) then init + [rs[|rs| - 1]] else init
  }

  /** The records emitted for one read: one per primary region, in the aligner's order. */
  function MapRead(read: Read, rs: seq<Region>): seq<string> {
    FormatEach(a => FormatRecord(read, a), Primaries(rs))
  }

  /** One record per region of `ps`, formatted by `format`, in order. */
  function FormatEach(format: Region -> string, ps: seq<Region>): seq<string> {
    seq(|ps|, i requires 0 <= i < |ps| => format(ps[i]))
  }

  /** The records one assembled read contributes; an IOException contributes none. */
  function ReadOutput(align: Read -> AlignOutcome, read: Read): seq<string> {
    match align(read)
    case IOFailure => []
    case Regions(rs) => MapRead(read, rs)
  }

  /** The outputs of a run of reads, one after the other, in the order of the run. */
  function Concat(out: Read -> seq<string>, built: seq<Read>): seq<string> {
    if built == [] then [] else Concat(out, built[..|built| - 1]) + out(built[|built| - 1])
  }

  /** The records a run of reads contributes, read after read. */
  function MapReads(align: Read -> AlignOutcome, built: seq<Read>): seq<string> {
    Concat(r => ReadOutput(align, r), built)
  }

  /** Filtering commutes with concatenation: the kept regions are neither reordered nor merged. */
  lemma {:induction false} PrimariesAppend(a: seq<Region>, b: seq<Region>)
    ensures Primaries(a + b) == Primaries(a) + Primaries(b)
    decreases |b|
  {
    if b == [] {
      assert a + b == a;
    } else {
      var c := a + b;
      assert c[..|c| - 1] == a + b[..|b| - 1];
      assert c[|c| - 1] == b[|b| - 1];
      PrimariesAppend(a, b[..|b| - 1]);
    }
  }

  /**
   * A secondary region is never kept; a primary region is kept exactly as
   * many times as the aligner returned it.
   */
  lemma {:induction false} PrimariesCount(rs: seq<Region>, x: Region)
    ensures multiset(Primaries(rs))[x] == if IsPrimary(x) then multiset(rs)[x] else 0
  {
    if rs != [] {
      var init, last := rs[..|rs| - 1], rs[|rs| - 1];
      PrimariesCount(init, x);
      assert rs == init + [last];
      assert multiset(rs) == multiset(init) + multiset{last};
      var ps := Primaries(init);
      if IsPrimary(last) {
        assert multiset(Primaries(rs)) == multiset(ps) + multiset{last};
      } else {
        assert Primaries(rs) == ps;
      }
    }
  }

  /**
   * Every record of a read is the formatting of one of the aligner's primary
   * regions, and there are never more records than regions.
   */
  lemma MapReadOrigin(read: Read, rs: seq<Region>, i: nat)
    requires i < |MapRead(read, rs)|
    ensures |MapRead(read, rs)| <= |rs|
    ensures exists a :: a in rs && IsPrimary(a) && MapRead(read, rs)[i] == FormatRecord(read, a)
  {
    var ps := Primaries(rs);
    assert ps[i] in rs && IsPrimary(ps[i]);
  }

  /** A read's records for regions `a` then `b` are those for `a` followed by those for `b`. */
  lemma MapReadAppend(read: Read, a: seq<Region>, b: seq<Region>)
    ensures MapRead(read, a + b) == MapRead(read, a) + MapRead(read, b)
  {
    PrimariesAppend(a, b);
    FormatEachAppend(a => FormatRecord(read, a), Primaries(a), Primaries(b));
  }

  lemma FormatEachAppend(format: Region -> string, p: seq<Region>, q: seq<Region>)
    ensures FormatEach(format, p + q) == FormatEach(format, p) + FormatEach(format, q)
  {
    var whole, front, back := FormatEach(format, p + q), FormatEach(format, p), FormatEach(format, q);
    forall i | 0 <= i < |whole|
      ensures whole[i] == (front + back)[i]
    {
      if i < |p| {
        assert (p + q)[i] == p[i];
      } else {
        assert (p + q)[i] == q[i - |p|];
      }
    }
  }

  /**
   * One more region adds one record when it is primary and nothing when it is
   * secondary: the step of the loop that walks the aligner's regions.
   */
  lemma MapReadSnoc(read: Read, rs: seq<Region>, a: Region)
    ensures MapRead(read, rs + [a])
         == MapRead(read, rs) + if IsPrimary(a) then [FormatRecord(read, a)] else []
  {
    MapReadAppend(read, rs, [a]);
    assert [a][..0] == [];
    if IsPrimary(a) {
      assert Primaries([a]) == [a];
      assert MapRead(read, [a]) == [FormatRecord(read, a)];
    } else {
      assert Primaries([a]) == [];
      assert MapRead(read, [a]) == [];
    }
  }

  lemma {:induction false} ConcatAppend(out: Read -> seq<string>, a: seq<Read>, b: seq<Read>)
    ensures Concat(out, a + b) == Concat(out, a) + Concat(out, b)
    decreases |b|
  {
    if b == [] {
      assert a + b == a;
    } else {
      var c := a + b;
      assert c[..|c| - 1] == a + b[..|b| - 1];
      assert c[|c| - 1] == b[|b| - 1];
      ConcatAppend(out, a, b[..|b| - 1]);
    }
  }

  /** Records of consecutive reads follow the order in which the reads were assembled. */
  lemma MapReadsAppend(align: Read -> AlignOutcome, a: seq<Read>, b: seq<Read>)
    ensures MapReads(align, a + b) == MapReads(align, a) + MapReads(align, b)
  {
    ConcatAppend(r => ReadOutput(align, r), a, b);
  }

  /** One more assembled read appends its own records and nothing else. */
  lemma MapReadsSnoc(align: Read -> AlignOutcome, built: seq<Read>, r: Read)
    ensures MapReads(align, built + [r]) == MapReads(align, built) + ReadOutput(align, r)
  {
    var c := built + [r];
    assert c[..|c| - 1] == built;
  }

  /** A read whose alignment throws an IOException leaves no trace in the output. */
  lemma FailedReadEmitsNothing(align: Read -> AlignOutcome, before: seq<Read>, r: Read, after: seq<Read>)
    requires align(r) == IOFailure
    ensures MapReads(align, before + [r] + after) == MapReads(align, before) + MapReads(align, after)
  {
    MapReadsAppend(align, before + [r], after);
    MapReadsSnoc(align, before, r);
  }
}
