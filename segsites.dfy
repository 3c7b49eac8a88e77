/** After simulation, the segregating-site counts of the train, vali and test
    corpora are pooled and their overall largest and smallest count tracked,
    for the advisory sanity comparison with the input VCF. */
module SegSites {
  import opened Common

  /** The running minimum starts at float("inf"). */
  datatype Bound = Infinity | Finite(v: int)

  function MinBound(b: Bound, x: int): (r: Bound)
    ensures r.Finite?
    ensures b.Finite? ==> r.v <= b.v
    ensures r.v <= x && (r.v == x || r == b)
  {
    match b
    case Infinity => Finite(x)
    case Finite(v) => Finite(Min(v, x))
  }

  /** The pooled counts and their extremes. */
  datatype Aggregate = Aggregate(all: seq<nat>, maxSegSites: nat, minSegSites: nat)

  /** The concatenation of a sequence of corpora, in order. */
  function Concat(corpora: seq<seq<nat>>): seq<nat> {
    if corpora == [] then [] else Concat(corpora[..|corpora| - 1]) + corpora[|corpora| - 1]
  }

  /** The corpus index of Python's ValueError: the first empty corpus. */
  function FirstEmpty(train: seq<nat>, vali: seq<nat>, test: seq<nat>): nat {
    if train == [] then 0 else if vali == [] then 1 else 2
  }

  /** The aggregation loop over the three corpora. max()/min() of an empty
      corpus raises ValueError, which ends the run. */
  method AggregateSegSites(train: seq<nat>, vali: seq<nat>, test: seq<nat>)
    returns (r: Result<Aggregate, Failure>)
    ensures r.Err? <==> train == [] || vali == [] || test == []
    ensures r.Err? ==> r.error == EmptySegSites(FirstEmpty(train, vali, test))
    ensures r.Ok? ==> r.value.all == train + vali + test
    ensures r.Ok? ==> r.value.maxSegSites in r.value.all
    ensures r.Ok? ==> forall i :: 0 <= i < |r.value.all| ==> r.value.all[i] <= r.value.maxSegSites
    ensures r.Ok? ==> r.value.minSegSites in r.value.all
    ensures r.Ok? ==> forall i :: 0 <= i < |r.value.all| ==> r.value.minSegSites <= r.value.all[i]
  {
    var corpora := [train, vali, test];
    var ss: seq<nat> := [];
    var maxSegSites: nat := 0;
    var minSegSites: Bound := Infinity;
    var k := 0;
    while k < 3
      invariant 0 <= k <= 3
      invariant forall j :: 0 <= j < k ==> corpora[j] != []
      invariant ss == Concat(corpora[..k])
      invariant k == 0 <==> ss == []
      invariant k == 0 ==> maxSegSites == 0 && minSegSites == Infinity
      invariant k > 0 ==> maxSegSites in ss && minSegSites.Finite? && minSegSites.v in ss
      invariant forall i :: 0 <= i < |ss| ==> ss[i] <= maxSegSites
      invariant minSegSites.Finite? ==> forall i :: 0 <= i < |ss| ==> minSegSites.v <= ss[i]
    {
      var ds := corpora[k];
      assert corpora[..k + 1] == corpora[..k] + [ds];
      ss := ss + ds;
      if ds == [] {
        assert ds == (if k == 0 then train else if k == 1 then vali else test);
        return Err(EmptySegSites(k));
      }
      var segSitesInDs := SeqMax(ds);
      var segSitesInDsMin := SeqMin(ds);
      maxSegSites := Max(maxSegSites, segSitesInDs);
      minSegSites := MinBound(minSegSites, segSitesInDsMin);
      k := k + 1;
    }
    assert corpora[..3] == corpora;
    assert corpora[0] != [] && corpora[1] != [] && corpora[2] != [];
    assert Concat(corpora) == train + vali + test by {
      assert corpora[..2] == [train, vali];
      assert [train, vali][..1] == [train];
      assert [train][..0] == [];
      assert Concat([train]) == train;
      assert Concat([train, vali]) == train + vali;
    }
    r := Ok(Aggregate(ss, maxSegSites, minSegSites.v));
  }
}
