/** Reading the genome file (BED-like rows "chromosome start end") into the
    ordered list of "chromosome:start-end" ranges handed to the VCF manager.
    Each row arrives already split on whitespace. */
module Genome {
  import opened Common

  /** The range label the source formats from a row's three fields. */
  function RangeLabel(fields: seq<string>): string
    requires |fields| == 3
  {
    fields[0] + ":" + fields[1] + "-" + fields[2]
  }

  /** The whole file is well formed: every row has exactly three fields. */
  predicate WellFormed(rows: seq<seq<string>>) {
    forall i :: 0 <= i < |rows| ==> |rows[i]| == 3
  }

  /** The first row without exactly three fields. */
  function FirstMalformed(rows: seq<seq<string>>): (i: nat)
    requires !WellFormed(rows)
    ensures i < |rows| && |rows[i]| != 3
    ensures forall j :: 0 <= j < i ==> |rows[j]| == 3
  {
    if |rows[0]| != 3 then 0 else FirstMalformed(rows[1..]) + 1
  }

  /** A malformed row with only well-formed rows before it is the first one. */
  lemma {:induction false} FirstMalformedIs(rows: seq<seq<string>>, i: nat)
    requires i < |rows| && |rows[i]| != 3
    requires forall j :: 0 <= j < i ==> |rows[j]| == 3
    ensures !WellFormed(rows) && FirstMalformed(rows) == i
  {
    if i > 0 {
      FirstMalformedIs(rows[1..], i - 1);
    }
  }

  /** Appends one label per row, in file order; the first row without exactly
      three fields stops the program (exit status 1) and nothing is returned. */
  method ParseGenome(rows: seq<seq<string>>) returns (r: Result<seq<string>, Failure>)
    ensures r.Ok? <==> WellFormed(rows)
    ensures r.Ok? ==> |r.value| == |rows|
    ensures r.Ok? ==> forall i :: 0 <= i < |rows| ==> r.value[i] == RangeLabel(rows[i])
    ensures r.Err? ==> r.error == MalformedGenomeLine(FirstMalformed(rows))
    ensures r.Err? ==> r.error.line < |rows| && |rows[r.error.line]| != 3
    ensures r.Err? ==> forall j :: 0 <= j < r.error.line ==> |rows[j]| == 3
  {
    var chromosomes: seq<string> := [];
    var i := 0;
    while i < |rows|
      invariant 0 <= i <= |rows|
      invariant forall j :: 0 <= j < i ==> |rows[j]| == 3
      invariant |chromosomes| == i
      invariant forall j :: 0 <= j < i ==> chromosomes[j] == RangeLabel(rows[j])
    {
      var ar := rows[i];
      if |ar| != 3 {
        FirstMalformedIs(rows, i);
        return Err(MalformedGenomeLine(i));
      }
      chromosomes := chromosomes + [RangeLabel(ar)];
      i := i + 1;
    }
    r := Ok(chromosomes);
  }

  /** Splitting at the first occurrence of a separator that the prefix does not
      contain recovers both sides. */
  lemma {:induction false} SplitAtSeparator(x: string, y: string, sep: char, xs: string, ys: string)
    requires sep !in x && sep !in y
    requires x + [sep] + xs == y + [sep] + ys
    ensures x == y && xs == ys
  {
    var s := x + [sep] + xs;
    // the separator sits right after each prefix, and inside neither of them
    assert s[|x|] == sep && s[|y|] == sep;
    assert forall k :: 0 <= k < |x| ==> s[k] == x[k] && x[k] in x;
    assert forall k :: 0 <= k < |y| ==> s[k] == y[k] && y[k] in y;
    assert |x| == |y|;
    assert x == s[..|x|];
    assert y == (y + [sep] + ys)[..|y|];
    assert xs == s[|x| + 1..];
    assert ys == (y + [sep] + ys)[|y| + 1..];
  }

  /** A label determines its row as long as the chromosome name holds no ':'
      and the start holds no '-' (true of numeric coordinates), so the ranges
      are in one-to-one correspondence with the rows. */
  lemma {:induction false} RangeLabelInjective(a: seq<string>, b: seq<string>)
    requires |a| == 3 && |b| == 3
    requires ':' !in a[0] && ':' !in b[0]
    requires '-' !in a[1] && '-' !in b[1]
    requires RangeLabel(a) == RangeLabel(b)
    ensures a == b
  {
    assert RangeLabel(a) == a[0] + [':'] + (a[1] + "-" + a[2]);
    assert RangeLabel(b) == b[0] + [':'] + (b[1] + "-" + b[2]);
    SplitAtSeparator(a[0], b[0], ':', a[1] + "-" + a[2], b[1] + "-" + b[2]);
    assert a[1] + "-" + a[2] == a[1] + ['-'] + a[2];
    assert b[1] + "-" + b[2] == b[1] + ['-'] + b[2];
    SplitAtSeparator(a[1], b[1], '-', a[2], b[2]);
  }
}
