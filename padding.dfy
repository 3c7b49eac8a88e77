/** The padding dimension of the train phase: the largest site count any
    window or any simulated replicate can present, so that the learner sees
    fixed-width input; when fine-tuning a stored model, that model's input
    width less 10 instead. */
module Padding {
  import opened Common
  import SegSites

  /** Whether the train phase starts from a stored model, and if so the second
      dimension of that model's first-layer batch input shape. */
  datatype Transfer = NoTransfer | Transfer(inputWidth: int)

  /** The columns the stored model reserves beyond the sites. */
  const TransferOffset: int := 10

  /** windowSizes.txt: the sixth whitespace-separated field of a row. */
  const SizeColumn: nat := 5

  predicate RowsHaveSizeColumn(rows: seq<seq<int>>) {
    forall i :: 0 <= i < |rows| ==> |rows[i]| > SizeColumn
  }

  /** `p` is at least 0, every window size and every simulated count. */
  predicate Covers(p: int, rows: seq<seq<int>>, corpora: seq<seq<nat>>)
    requires RowsHaveSizeColumn(rows)
  {
    && p >= 0
    && (forall i :: 0 <= i < |rows| ==> rows[i][SizeColumn] <= p)
    && (forall j, i :: 0 <= j < |corpora| && 0 <= i < |corpora[j]| ==> corpora[j][i] <= p)
  }

  /** `p` is 0, a window size or a simulated count. */
  predicate Attained(p: int, rows: seq<seq<int>>, corpora: seq<seq<nat>>)
    requires RowsHaveSizeColumn(rows)
  {
    || p == 0
    || (exists i :: 0 <= i < |rows| && rows[i][SizeColumn] == p)
    || (exists j, i :: 0 <= j < |corpora| && 0 <= i < |corpora[j]| && corpora[j][i] == p)
  }

  /** The two together pin the value down: it is the maximum. */
  lemma CoversAttainedUnique(p: int, q: int, rows: seq<seq<int>>, corpora: seq<seq<nat>>)
    requires RowsHaveSizeColumn(rows)
    requires Covers(p, rows, corpora) && Attained(p, rows, corpora)
    requires Covers(q, rows, corpora) && Attained(q, rows, corpora)
    ensures p == q
  {
  }

  /** Which row or corpus stops the scan: the first row without a sixth field
      (IndexError), else the first corpus with no replicates (ValueError). */
  function FirstProblem(rows: seq<seq<int>>, train: seq<nat>, vali: seq<nat>, test: seq<nat>): Option<Failure> {
    if !RowsHaveSizeColumn(rows) then
      Some(MissingWindowColumn(FirstShortRow(rows)))
    else if train == [] || vali == [] || test == [] then
      Some(EmptySegSites(SegSites.FirstEmpty(train, vali, test)))
    else None
  }

  function FirstShortRow(rows: seq<seq<int>>): (i: nat)
    requires !RowsHaveSizeColumn(rows)
    ensures i < |rows| && |rows[i]| <= SizeColumn
    ensures forall j :: 0 <= j < i ==> |rows[j]| > SizeColumn
  {
    if |rows[0]| <= SizeColumn then 0 else FirstShortRow(rows[1..]) + 1
  }

  /** The scan of windowSizes.txt: the running maximum of the sixth field,
      starting from 0; a row without a sixth field raises IndexError. */
  method MaxWindowSize(rows: seq<seq<int>>) returns (r: Result<int, Failure>)
    ensures r.Err? <==> !RowsHaveSizeColumn(rows)
    ensures r.Err? ==> r.error == MissingWindowColumn(FirstShortRow(rows))
    ensures r.Ok? ==> r.value >= 0
    ensures r.Ok? ==> forall i :: 0 <= i < |rows| ==> rows[i][SizeColumn] <= r.value
    ensures r.Ok? ==> r.value == 0 || exists i :: 0 <= i < |rows| && rows[i][SizeColumn] == r.value
  {
    var maxSimS := 0;
    var i := 0;
    while i < |rows|
      invariant 0 <= i <= |rows|
      invariant forall j :: 0 <= j < i ==> |rows[j]| > SizeColumn
      invariant maxSimS >= 0
      invariant forall j :: 0 <= j < i ==> rows[j][SizeColumn] <= maxSimS
      invariant maxSimS == 0 || exists j :: 0 <= j < i && rows[j][SizeColumn] == maxSimS
    {
      if |rows[i]| <= SizeColumn {
        FirstShortRowIs(rows, i);
        return Err(MissingWindowColumn(i));
      }
      maxSimS := Max(maxSimS, rows[i][SizeColumn]);
      i := i + 1;
    }
    r := Ok(maxSimS);
  }

  /** The scan of the three corpora: the running maximum of each segSites
      list's max(), starting from 0; an empty list raises ValueError. */
  method MaxSimulatedSites(train: seq<nat>, vali: seq<nat>, test: seq<nat>) returns (r: Result<int, Failure>)
    ensures r.Err? <==> train == [] || vali == [] || test == []
    ensures r.Err? ==> r.error == EmptySegSites(SegSites.FirstEmpty(train, vali, test))
    ensures r.Ok? ==> r.value >= 0
    ensures r.Ok? ==> forall j, e :: 0 <= j < 3 && 0 <= e < |[train, vali, test][j]| ==>
      [train, vali, test][j][e] <= r.value
    ensures r.Ok? ==> (r.value == 0 ||
      exists j, e :: 0 <= j < 3 && 0 <= e < |[train, vali, test][j]| && [train, vali, test][j][e] == r.value)
  {
    var corpora := [train, vali, test];
    var maxSegSites := 0;
    var k := 0;
    while k < 3
      invariant 0 <= k <= 3
      invariant forall j :: 0 <= j < k ==> corpora[j] != []
      invariant maxSegSites >= 0
      invariant forall j, e :: 0 <= j < k && 0 <= e < |corpora[j]| ==> corpora[j][e] <= maxSegSites
      invariant maxSegSites == 0 || exists j, e :: 0 <= j < k && 0 <= e < |corpora[j]| && corpora[j][e] == maxSegSites
    {
      var ds := corpora[k];
      if ds == [] {
        assert corpora[0] == train && corpora[1] == vali && corpora[2] == test;
        assert k == 0 ==> train == [];
        assert k == 1 ==> train != [] && vali == [];
        assert k == 2 ==> train != [] && vali != [] && test == [];
        return Err(EmptySegSites(k));
      }
      var segSitesInDs := SeqMax(ds);
      ghost var at :| 0 <= at < |ds| && ds[at] == segSitesInDs;
      maxSegSites := Max(maxSegSites, segSitesInDs);
      k := k + 1;
    }
    assert corpora[0] != [] && corpora[1] != [] && corpora[2] != [];
    r := Ok(maxSegSites);
  }

  /** The padding of the train phase: the larger of the two scans, then the
      transfer override. */
  method ReconcilePadding(rows: seq<seq<int>>, train: seq<nat>, vali: seq<nat>, test: seq<nat>, transfer: Transfer)
    returns (r: Result<int, Failure>)
    ensures r.Err? <==> FirstProblem(rows, train, vali, test).Some?
    ensures r.Err? ==> r.error == FirstProblem(rows, train, vali, test).value
    ensures r.Ok? && transfer.NoTransfer? ==>
      Covers(r.value, rows, [train, vali, test]) && Attained(r.value, rows, [train, vali, test])
    // fine-tuning overrides whatever was computed
    ensures r.Ok? && transfer.Transfer? ==> r.value == transfer.inputWidth - TransferOffset
  {
    var maxSimS := MaxWindowSize(rows);
    if maxSimS.Err? {
      return Err(maxSimS.error);
    }
    var maxSegSites := MaxSimulatedSites(train, vali, test);
    if maxSegSites.Err? {
      return Err(maxSegSites.error);
    }
    var padding := Max(maxSegSites.value, maxSimS.value);
    if transfer.Transfer? {
      padding := transfer.inputWidth - TransferOffset;
    }
    r := Ok(padding);
  }

  lemma {:induction false} FirstShortRowIs(rows: seq<seq<int>>, i: nat)
    requires i < |rows| && |rows[i]| <= SizeColumn
    requires forall j :: 0 <= j < i ==> |rows[j]| > SizeColumn
    ensures !RowsHaveSizeColumn(rows) && FirstShortRow(rows) == i
  {
    if i > 0 {
      FirstShortRowIs(rows[1..], i - 1);
    }
  }

  /** A client: corpora whose largest counts are 1200, 900 and 1500 with a
      largest window size of 1400 pad to 1500; a stored model of input width
      1800 forces 1790 instead. */
  method PaddingExample() {
    var rows := [[0, 0, 0, 0, 0, 1400]];
    var corpora := [[1200], [900], [1500]];
    var r := ReconcilePadding(rows, [1200], [900], [1500], NoTransfer);
    assert r.Ok?;
    assert rows[0][SizeColumn] == 1400;
    forall j, i | 0 <= j < |corpora| && 0 <= i < |corpora[j]| ensures corpora[j][i] <= 1500 {
      assert i == 0;
    }
    assert Covers(1500, rows, corpora);
    assert corpora[2][0] == 1500;
    assert Attained(1500, rows, corpora);
    CoversAttainedUnique(r.value, 1500, rows, corpora);
    assert r.value == 1500;
    var t := ReconcilePadding(rows, [1200], [900], [1500], Transfer(1800));
    assert t == Ok(1790);
  }
}
