/**
 * The record formatter: one aligned read becomes one tab-separated line of
 * twelve columns (Mapper.java line 99).
 */
module SamRecord {
  import opened Wrappers
  import opened Decimal

  /** A jbwa ShortRead: name, bases and qualities (byte arrays taken as text). */
  datatype Read = Read(name: string, bases: string, quals: string)

  /**
   * A jbwa AlnRgn, restricted to the getters the operator calls. `secondary`
   * is the index of the primary this region is an alternative to, or negative
   * when the region is itself a primary.
   */
  datatype Region = Region(chrom: string, pos: int, cigar: string, mapq: int,
                           score: int, nm: int, secondary: int)

  predicate NoTab(s: string) {
    '\t' !in s
  }

  const EditDistanceTag: string := "NM:i:"

  /** The twelve columns of a record, in output order. */
  function Fields(read: Read, a: Region): seq<string> {
    [read.name, IntToString(a.score), a.chrom, IntToString(a.pos), IntToString(a.mapq),
     a.cigar, "*", "0", "0", read.bases, read.quals, EditDistanceTag + IntToString(a.nm)]
  }

  /** Joins fields with one tab between neighbours. */
  function JoinTabs(fs: seq<string>): string {
    if |fs| == 0 then ""
    else if |fs| == 1 then fs[0]
    else fs[0] + "\t" + JoinTabs(fs[1..])
  }

  /** Cuts a line at every tab; an empty line is one empty field. */
  function SplitTabs(s: string): (fs: seq<string>)
    ensures |fs| >= 1
    ensures forall i :: 0 <= i < |fs| ==> NoTab(fs[i])
    decreases |s|
  {
    if s == [] then [[]]
    else
      var rest := SplitTabs(s[1..]);
      if s[0] == '\t' then [[]] + rest else [[s[0]] + rest[0]] + rest[1..]
  }

  /** The line emitted for `read` aligned at `a`: its columns, each followed by a tab but the last. */
  function FormatRecord(read: Read, a: Region): string {
    read.name + "\t" + IntToString(a.score) + "\t" + a.chrom + "\t" + IntToString(a.pos)
    + "\t" + IntToString(a.mapq) + "\t" + a.cigar + "\t" + "*" + "\t" + "0" + "\t" + "0"
    + "\t" + read.bases + "\t" + read.quals + "\t" + EditDistanceTag + IntToString(a.nm)
  }

  /** Joining the pieces of a split gives back the line, whatever it holds. */
  lemma {:induction false} JoinSplit(s: string)
    ensures JoinTabs(SplitTabs(s)) == s
    decreases |s|
  {
    if s != [] {
      var rest := SplitTabs(s[1..]);
      JoinSplit(s[1..]);
      if s[0] == '\t' {
        assert SplitTabs(s) == [[]] + rest;
      } else {
        var fs := [[s[0]] + rest[0]] + rest[1..];
        assert SplitTabs(s) == fs;
        if |rest| == 1 {
          assert JoinTabs(fs) == [s[0]] + rest[0];
        } else {
          assert fs[1..] == rest[1..];
          assert JoinTabs(fs) == [s[0]] + (rest[0] + "\t" + JoinTabs(rest[1..]));
        }
      }
    }
  }

  lemma {:induction false} SplitField(f: string)
    requires NoTab(f)
    ensures SplitTabs(f) == [f]
    decreases |f|
  {
    if f != [] {
      assert NoTab(f[1..]);
      SplitField(f[1..]);
      assert [f[0]] + f[1..] == f;
    }
  }

  lemma {:induction false} SplitAfterField(f: string, t: string)
    requires NoTab(f)
    ensures SplitTabs(f + "\t" + t) == [f] + SplitTabs(t)
    decreases |f|
  {
    var s := f + "\t" + t;
    if f == [] {
      assert s[1..] == t;
    } else {
      assert s[1..] == f[1..] + "\t" + t;
      assert NoTab(f[1..]);
      SplitAfterField(f[1..], t);
      assert [f[0]] + f[1..] == f;
    }
  }

  /** Splitting a join of tab-free fields gives back exactly those fields. */
  lemma {:induction false} SplitJoin(fs: seq<string>)
    requires |fs| >= 1
    requires forall i :: 0 <= i < |fs| ==> NoTab(fs[i])
    ensures SplitTabs(JoinTabs(fs)) == fs
    decreases |fs|
  {
    if |fs| == 1 {
      SplitField(fs[0]);
    } else {
      SplitJoin(fs[1..]);
      SplitAfterField(fs[0], JoinTabs(fs[1..]));
      assert [fs[0]] + fs[1..] == fs;
    }
  }

  /**
   * When the read's name, bases and qualities and the region's chromosome and
   * CIGAR hold no tab, a record splits into exactly its twelve columns in
   * order, and every numeric column reads back as the value it came from.
   */
  lemma FormatRecordColumns(read: Read, a: Region)
    requires NoTab(read.name) && NoTab(read.bases) && NoTab(read.quals)
    requires NoTab(a.chrom) && NoTab(a.cigar)
    ensures var fs := SplitTabs(FormatRecord(read, a));
      && |fs| == 12
      && fs[0] == read.name && ParseInt(fs[1]) == Some(a.score)
      && fs[2] == a.chrom && ParseInt(fs[3]) == Some(a.pos)
      && ParseInt(fs[4]) == Some(a.mapq) && fs[5] == a.cigar
      && fs[6] == "*" && fs[7] == "0" && fs[8] == "0"
      && fs[9] == read.bases && fs[10] == read.quals
      && |fs[11]| >= 5 && fs[11][..5] == EditDistanceTag && ParseInt(fs[11][5..]) == Some(a.nm)
  {
    RecordSplitsIntoFields(read, a);
    FieldsReadBack(read, a);
  }

  /** The columns hold the read's and region's values, the numeric ones as numerals that parse back. */
  lemma FieldsReadBack(read: Read, a: Region)
    ensures var fs := Fields(read, a);
      && |fs| == 12
      && fs[0] == read.name && ParseInt(fs[1]) == Some(a.score)
      && fs[2] == a.chrom && ParseInt(fs[3]) == Some(a.pos)
      && ParseInt(fs[4]) == Some(a.mapq) && fs[5] == a.cigar
      && fs[6] == "*" && fs[7] == "0" && fs[8] == "0"
      && fs[9] == read.bases && fs[10] == read.quals
      && |fs[11]| >= 5 && fs[11][..5] == EditDistanceTag && ParseInt(fs[11][5..]) == Some(a.nm)
  {
    var fs := Fields(read, a);
    assert fs[1] == IntToString(a.score) && fs[3] == IntToString(a.pos);
    assert fs[4] == IntToString(a.mapq) && fs[11] == EditDistanceTag + IntToString(a.nm);
    IntToStringRoundTrip(a.score);
    IntToStringRoundTrip(a.pos);
    IntToStringRoundTrip(a.mapq);
    TagReadBack(a.nm);
  }

  /** The last column is the edit-distance tag followed by a numeral that parses back. */
  lemma TagReadBack(n: int)
    ensures var t := EditDistanceTag + IntToString(n);
      |t| >= 5 && t[..5] == EditDistanceTag && ParseInt(t[5..]) == Some(n)
  {
    var t := EditDistanceTag + IntToString(n);
    assert t[5..] == IntToString(n);
    IntToStringRoundTrip(n);
  }

  /** With tab-free text columns, splitting a record gives back exactly its columns. */
  lemma RecordSplitsIntoFields(read: Read, a: Region)
    requires NoTab(read.name) && NoTab(read.bases) && NoTab(read.quals)
    requires NoTab(a.chrom) && NoTab(a.cigar)
    ensures SplitTabs(FormatRecord(read, a)) == Fields(read, a)
  {
    assert NoTab(EditDistanceTag + IntToString(a.nm));
    FormatRecordJoinsFields(read, a);
    SplitJoin(Fields(read, a));
  }

  lemma JoinTabsCons(f: string, rest: seq<string>)
    requires |rest| >= 1
    ensures JoinTabs([f] + rest) == f + "\t" + JoinTabs(rest)
  {
    assert ([f] + rest)[1..] == rest;
  }

  /** Joining two non-empty runs of fields puts one tab between them. */
  lemma {:induction false} JoinTabsAppend(a: seq<string>, b: seq<string>)
    requires |a| >= 1 && |b| >= 1
    ensures JoinTabs(a + b) == JoinTabs(a) + "\t" + JoinTabs(b)
    decreases |a|
  {
    if |a| == 1 {
      JoinTabsCons(a[0], b);
      assert [a[0]] + b == a + b;
    } else {
      JoinTabsAppend(a[1..], b);
      JoinTabsCons(a[0], a[1..] + b);
      assert [a[0]] + (a[1..] + b) == a + b;
      assert [a[0]] + a[1..] == a;
      JoinTabsCons(a[0], a[1..]);
    }
  }

  /** Joining one more field adds a tab and that field at the end. */
  lemma JoinTabsSnoc(fs: seq<string>, f: string)
    requires |fs| >= 1
    ensures JoinTabs(fs + [f]) == JoinTabs(fs) + "\t" + f
  {
    JoinTabsAppend(fs, [f]);
  }

  /** A record is its twelve columns, in order, joined by single tabs. */
  lemma FormatRecordJoinsFields(read: Read, a: Region)
    ensures FormatRecord(read, a) == JoinTabs(Fields(read, a))
  {
    var fs := Fields(read, a);
    assert fs[..1] + [fs[1]] == fs[..2];
    assert fs[..2] + [fs[2]] == fs[..3];
    assert fs[..3] + [fs[3]] == fs[..4];
    assert fs[..4] + [fs[4]] == fs[..5];
    assert fs[..5] + [fs[5]] == fs[..6];
    assert fs[..6] + [fs[6]] == fs[..7];
    assert fs[..7] + [fs[7]] == fs[..8];
    assert fs[..8] + [fs[8]] == fs[..9];
    assert fs[..9] + [fs[9]] == fs[..10];
    assert fs[..10] + [fs[10]] == fs[..11];
    assert fs[..11] + [fs[11]] == fs[..12];
    assert JoinTabs(fs[..1]) == fs[0];
    JoinTabsSnoc(fs[..1], fs[1]);
    JoinTabsSnoc(fs[..2], fs[2]);
    JoinTabsSnoc(fs[..3], fs[3]);
    JoinTabsSnoc(fs[..4], fs[4]);
    JoinTabsSnoc(fs[..5], fs[5]);
    JoinTabsSnoc(fs[..6], fs[6]);
    JoinTabsSnoc(fs[..7], fs[7]);
    JoinTabsSnoc(fs[..8], fs[8]);
    JoinTabsSnoc(fs[..9], fs[9]);
    JoinTabsSnoc(fs[..10], fs[10]);
    JoinTabsSnoc(fs[..11], fs[11]);
    assert fs[..12] == fs;
  }

  lemma ExampleNumerals()
    ensures IntToString(36) == "36" && IntToString(100) == "100"
    ensures IntToString(60) == "60" && IntToString(0) == "0"
  {
    assert DigitChar(3) == '3' && DigitChar(6) == '6' && DigitChar(1) == '1' && DigitChar(0) == '0';
    assert NatToString(10) == "10";
  }

  /** The worked example: one primary hit of read @r1 at position 100 of chr1. */
  lemma ExampleRecord()
    ensures FormatRecord(Read("@r1", "ACGT", "IIII"), Region("chr1", 100, "36M", 60, 36, 0, -1))
         == "@r1" + "\t" + "36" + "\t" + "chr1" + "\t" + "100" + "\t" + "60" + "\t" + "36M"
            + "\t" + "*" + "\t" + "0" + "\t" + "0" + "\t" + "ACGT" + "\t" + "IIII" + "\t" + "NM:i:0"
  {
    ExampleNumerals();
    assert EditDistanceTag + "0" == "NM:i:0";
  }
}
