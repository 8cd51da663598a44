/** The sample descriptor shared by both layouts: the sample id, the layout chosen
    from the experiment package, the ordered set of run accessions and the
    estimated spot count (a Java `int`). */
module ReadSample {
  import opened Util
  import opened SortedSets
  import opened Xml
  import opened SeqPart
  import PairedReadSample
  import SingleReadSample

  /** Which subclass `create` builds. */
  datatype Layout = Paired | Single

  /** The subclass's `processHeader`, chosen by layout. */
  function HeaderProcessor(layout: Layout): (f: string -> Result<Header>)
    ensures layout == Paired ==> f == PairedReadSample.ProcessHeader
    ensures layout == Single ==> f == SingleReadSample.ProcessHeader
  {
    if layout == Paired then PairedReadSample.ProcessHeader else SingleReadSample.ProcessHeader
  }

  /** The layout of an experiment package: paired iff LIBRARY_LAYOUT has a PAIRED
      descendant; a package without LIBRARY_LAYOUT is a `TagNotFoundException`. */
  function LayoutOf(exp: Element): (r: Result<Layout>)
    ensures r.Err? <==> FindFirst(exp, "LIBRARY_LAYOUT").None?
    ensures r.Err? ==> r.error == TagNotFound("LIBRARY_LAYOUT")
    ensures r.Ok? ==> (r.value == Paired <==> FindFirst(FindFirst(exp, "LIBRARY_LAYOUT").value, "PAIRED").Some?)
  {
    match GetFirst(exp, "LIBRARY_LAYOUT")
    case Err(e) => Err(e)
    case Ok(layout) => if FindFirst(layout, "PAIRED").Some? then Ok(Paired) else Ok(Single)
  }

  /** `getSampleId`: the accession of the package's SAMPLE node. */
  function GetSampleId(exp: Element): (r: Result<string>)
    ensures r.Err? <==> FindFirst(exp, "SAMPLE").None?
    ensures r.Ok? ==> r.value == GetAttribute(FindFirst(exp, "SAMPLE").value, "accession")
  {
    match GetFirst(exp, "SAMPLE")
    case Err(e) => Err(e)
    case Ok(s) => Ok(GetAttribute(s, "accession"))
  }

  /** `getRunId`: the accession of the package's first RUN node. */
  function GetRunId(exp: Element): (r: Result<string>)
    ensures r.Err? <==> FindFirst(exp, "RUN").None?
    ensures r.Ok? ==> r.value == GetAttribute(FindFirst(exp, "RUN").value, "accession")
  {
    match GetFirst(exp, "RUN")
    case Err(e) => Err(e)
    case Ok(s) => Ok(GetAttribute(s, "accession"))
  }

  // ---------------------------------------------------------------- run merging

  /** The run part of a sample: ordered run accessions and the exact sum of the
      spot counts of the runs added; the sample's `int` field holds that sum
      wrapped to 32 bits (`JavaSpots`). */
  datatype RunTally = RunTally(runs: seq<string>, total: int)

  predicate ValidTally(t: RunTally) {
    StrictlySorted(t.runs)
  }

  /** The value of the `int` spot counter. */
  function JavaSpots(t: RunTally): (v: int)
    ensures INT_MIN <= v <= INT_MAX
  {
    Wrap32(t.total)
  }

  /** One loop step of `addRuns`: a run not yet present is added and its spots
      counted; a known run changes nothing. */
  function AddRunTo(t: RunTally, id: string, n: int): (r: RunTally)
    requires ValidTally(t)
    ensures ValidTally(r)
    ensures forall y :: y in r.runs <==> y in t.runs || y == id
  {
    if id in t.runs then t else RunTally(Insert(t.runs, id), t.total + n)
  }

  datatype Absorbed = Absorbed(tally: RunTally, outcome: Outcome)

  function RunIds(rs: seq<Element>): (ids: seq<string>)
    ensures |ids| == |rs|
    ensures forall i :: 0 <= i < |rs| ==> ids[i] == GetAttribute(rs[i], "accession")
  {
    if rs == [] then [] else [GetAttribute(rs[0], "accession")] + RunIds(rs[1..])
  }

  predicate SpotsParse(rs: seq<Element>) {
    forall i :: 0 <= i < |rs| ==> ParseInt(GetAttribute(rs[i], "total_spots")).Ok?
  }

  /** The `addRuns` loop over the RUN elements `rs`: each run's `total_spots` is
      parsed first, so a malformed count stops the loop with the runs before it
      already absorbed. */
  function AbsorbRuns(t: RunTally, rs: seq<Element>): (a: Absorbed)
    requires ValidTally(t)
    ensures ValidTally(a.tally)
    decreases |rs|
  {
    if rs == [] then Absorbed(t, Pass)
    else
      var id := GetAttribute(rs[0], "accession");
      match ParseInt(GetAttribute(rs[0], "total_spots"))
      case Err(e) => Absorbed(t, Fail(e))
      case Ok(n) => AbsorbRuns(AddRunTo(t, id, n), rs[1..])
  }

  /** One step of `AbsorbRuns`. */
  lemma AbsorbUnfold(t: RunTally, rs: seq<Element>)
    requires ValidTally(t) && rs != []
    ensures ParseInt(GetAttribute(rs[0], "total_spots")).Err? ==>
      AbsorbRuns(t, rs) == Absorbed(t, Fail(ParseInt(GetAttribute(rs[0], "total_spots")).error))
    ensures ParseInt(GetAttribute(rs[0], "total_spots")).Ok? ==>
      AbsorbRuns(t, rs) ==
      AbsorbRuns(AddRunTo(t, GetAttribute(rs[0], "accession"), ParseInt(GetAttribute(rs[0], "total_spots")).value), rs[1..])
  {
  }

  /** The RUN elements of RUN_SET, or the exception for a missing RUN_SET. */
  function RunElements(exp: Element): (r: Result<seq<Element>>)
    ensures r.Err? <==> FindFirst(exp, "RUN_SET").None?
    ensures r.Err? ==> r.error == TagNotFound("RUN_SET")
  {
    match GetFirst(exp, "RUN_SET")
    case Err(e) => Err(e)
    case Ok(runSet) => Ok(DescendantsOf(runSet, "RUN"))
  }

  /** `addRuns(expElement)` on the run part of a sample. */
  function AddRunsSpec(t: RunTally, exp: Element): (a: Absorbed)
    requires ValidTally(t)
    ensures ValidTally(a.tally)
  {
    match RunElements(exp)
    case Err(e) => Absorbed(t, Fail(e))
    case Ok(rs) => AbsorbRuns(t, rs)
  }

  /** The run set never shrinks; a run joins it only from the batch; when the whole
      batch was absorbed, the run set is exactly the old set plus the batch. */
  lemma {:induction false} AbsorbRunsMembers(t: RunTally, rs: seq<Element>)
    requires ValidTally(t)
    ensures forall y :: y in t.runs ==> y in AbsorbRuns(t, rs).tally.runs
    ensures forall y :: y in AbsorbRuns(t, rs).tally.runs ==> y in t.runs || y in RunIds(rs)
    ensures AbsorbRuns(t, rs).outcome == Pass ==>
      forall y :: y in AbsorbRuns(t, rs).tally.runs <==> y in t.runs || y in RunIds(rs)
    ensures AbsorbRuns(t, rs).outcome == Pass <==> SpotsParse(rs)
    decreases |rs|
  {
    if rs != [] {
      match ParseInt(GetAttribute(rs[0], "total_spots"))
      case Err(e) =>
        assert !SpotsParse(rs);
      case Ok(n) =>
        var t' := AddRunTo(t, GetAttribute(rs[0], "accession"), n);
        AbsorbRunsMembers(t', rs[1..]);
        assert RunIds(rs) == [GetAttribute(rs[0], "accession")] + RunIds(rs[1..]);
        assert SpotsParse(rs) <==> SpotsParse(rs[1..]) by {
          if SpotsParse(rs[1..]) {
            forall i | 0 <= i < |rs| ensures ParseInt(GetAttribute(rs[i], "total_spots")).Ok? {
              if i > 0 { assert rs[i] == rs[1..][i - 1]; }
            }
          }
          if SpotsParse(rs) {
            forall i | 0 <= i < |rs[1..]| ensures ParseInt(GetAttribute(rs[1..][i], "total_spots")).Ok? {
              assert rs[1..][i] == rs[i + 1];
            }
          }
        }
    }
  }

  /** A batch whose runs are all known already changes nothing. */
  lemma {:induction false} AbsorbKnown(t: RunTally, rs: seq<Element>)
    requires ValidTally(t) && SpotsParse(rs)
    requires forall y :: y in RunIds(rs) ==> y in t.runs
    ensures AbsorbRuns(t, rs) == Absorbed(t, Pass)
    decreases |rs|
  {
    if rs != [] {
      assert ParseInt(GetAttribute(rs[0], "total_spots")).Ok?;
      assert RunIds(rs)[0] in t.runs;
      assert forall y :: y in RunIds(rs[1..]) ==> y in RunIds(rs) by {
        assert RunIds(rs) == [GetAttribute(rs[0], "accession")] + RunIds(rs[1..]);
      }
      assert SpotsParse(rs[1..]) by {
        forall i | 0 <= i < |rs[1..]| ensures ParseInt(GetAttribute(rs[1..][i], "total_spots")).Ok? {
          assert rs[1..][i] == rs[i + 1];
        }
      }
      AbsorbKnown(t, rs[1..]);
    }
  }

  /** Applying the same batch a second time leaves runs and spots unchanged: spots
      are never counted twice for one run. */
  lemma AbsorbIdempotent(t: RunTally, rs: seq<Element>)
    requires ValidTally(t)
    requires AbsorbRuns(t, rs).outcome == Pass
    ensures AbsorbRuns(AbsorbRuns(t, rs).tally, rs) == AbsorbRuns(t, rs)
  {
    AbsorbRunsMembers(t, rs);
    AbsorbKnown(AbsorbRuns(t, rs).tally, rs);
  }

  /** The run list depends only on which runs were absorbed, not on their order
      or repetition in the package. */
  lemma AbsorbOrderFree(t: RunTally, a: seq<Element>, b: seq<Element>)
    requires ValidTally(t) && SpotsParse(a) && SpotsParse(b)
    requires forall y :: y in RunIds(a) <==> y in RunIds(b)
    ensures AbsorbRuns(t, a).tally.runs == AbsorbRuns(t, b).tally.runs
  {
    AbsorbRunsMembers(t, a);
    AbsorbRunsMembers(t, b);
    SortedUnique(AbsorbRuns(t, a).tally.runs, AbsorbRuns(t, b).tally.runs);
  }

  /** Absorbing two batches in turn is absorbing their concatenation. */
  lemma {:induction false} AbsorbConcat(t: RunTally, a: seq<Element>, b: seq<Element>)
    requires ValidTally(t)
    requires AbsorbRuns(t, a).outcome == Pass
    ensures AbsorbRuns(AbsorbRuns(t, a).tally, b) == AbsorbRuns(t, a + b)
    decreases |a|
  {
    if a == [] {
      assert a + b == b;
    } else {
      var n := ParseInt(GetAttribute(a[0], "total_spots")).value;
      assert (a + b)[0] == a[0] && (a + b)[1..] == a[1..] + b;
      AbsorbConcat(AddRunTo(t, GetAttribute(a[0], "accession"), n), a[1..], b);
    }
  }

  /** The sum of the parsed `total_spots` of a batch. */
  function SpotTotal(rs: seq<Element>): int
    requires SpotsParse(rs)
  {
    if rs == [] then 0
    else
      assert SpotsParse(rs[1..]) by {
        forall i | 0 <= i < |rs[1..]| ensures ParseInt(GetAttribute(rs[1..][i], "total_spots")).Ok? {
          assert rs[1..][i] == rs[i + 1];
        }
      }
      ParseInt(GetAttribute(rs[0], "total_spots")).value + SpotTotal(rs[1..])
  }

  predicate DistinctIds(ids: seq<string>) {
    forall i, j :: 0 <= i < j < |ids| ==> ids[i] != ids[j]
  }

  lemma SpotsParseTail(rs: seq<Element>)
    requires rs != [] && SpotsParse(rs)
    ensures SpotsParse(rs[1..]) && ParseInt(GetAttribute(rs[0], "total_spots")).Ok?
  {
    forall i | 0 <= i < |rs[1..]| ensures ParseInt(GetAttribute(rs[1..][i], "total_spots")).Ok? {
      assert rs[1..][i] == rs[i + 1];
    }
  }

  /** The tail of a batch of distinct, all-new runs is one too, against the tally
      that already holds the head. */
  lemma FreshTail(runs: seq<string>, rs: seq<Element>)
    requires rs != [] && DistinctIds(RunIds(rs))
    requires forall y :: y in RunIds(rs) ==> y !in runs
    ensures DistinctIds(RunIds(rs[1..]))
    ensures GetAttribute(rs[0], "accession") !in runs
    ensures forall y :: y in RunIds(rs[1..]) ==> y !in runs && y != GetAttribute(rs[0], "accession")
  {
    var ids := RunIds(rs);
    var tail := RunIds(rs[1..]);
    assert ids == [GetAttribute(rs[0], "accession")] + tail;
    assert ids[0] in ids;
    forall i, j | 0 <= i < j < |tail| ensures tail[i] != tail[j] {
      assert tail[i] == ids[i + 1] && tail[j] == ids[j + 1];
    }
    forall y | y in tail ensures y !in runs && y != ids[0] {
      var j :| 0 <= j < |tail| && tail[j] == y;
      assert ids[j + 1] == y;
    }
  }

  /** A batch of distinct runs that are all new adds exactly the sum of their spot
      counts. */
  lemma {:induction false} AbsorbFreshSum(t: RunTally, rs: seq<Element>)
    requires ValidTally(t) && SpotsParse(rs)
    requires DistinctIds(RunIds(rs))
    requires forall y :: y in RunIds(rs) ==> y !in t.runs
    ensures AbsorbRuns(t, rs).outcome == Pass
    ensures AbsorbRuns(t, rs).tally.total == t.total + SpotTotal(rs)
    decreases |rs|
  {
    if rs != [] {
      var id := GetAttribute(rs[0], "accession");
      SpotsParseTail(rs);
      FreshTail(t.runs, rs);
      var n := ParseInt(GetAttribute(rs[0], "total_spots")).value;
      var t' := AddRunTo(t, id, n);
      assert AbsorbRuns(t, rs) == AbsorbRuns(t', rs[1..]);
      AbsorbFreshSum(t', rs[1..]);
    }
  }

  // ---------------------------------------------------------------- the sample

  /** The value of a sample descriptor. */
  datatype SampleDesc = SampleDesc(id: string, layout: Layout, tally: RunTally)

  /** `ReadSample.create(sampleId, expElement)`: the layout first, then a new sample
      with no runs and no spots that absorbs the package's runs. */
  function CreateSpec(sampleId: string, exp: Element): (r: Result<SampleDesc>)
    ensures r.Ok? <==> LayoutOf(exp).Ok? && AddRunsSpec(RunTally([], 0), exp).outcome == Pass
    ensures r.Ok? ==> r.value.id == sampleId && r.value.layout == LayoutOf(exp).value
    ensures r.Ok? ==> r.value.tally == AddRunsSpec(RunTally([], 0), exp).tally
    ensures r.Ok? ==> ValidTally(r.value.tally)
  {
    match LayoutOf(exp)
    case Err(e) => Err(e)
    case Ok(layout) =>
      var a := AddRunsSpec(RunTally([], 0), exp);
      match a.outcome
      case Fail(e) => Err(e)
      case Pass => Ok(SampleDesc(sampleId, layout, a.tally))
  }

  /** A created sample holds exactly the package's runs: every RUN under RUN_SET. */
  lemma CreateRuns(sampleId: string, exp: Element)
    requires CreateSpec(sampleId, exp).Ok?
    ensures forall y :: y in CreateSpec(sampleId, exp).value.tally.runs <==>
      y in RunIds(DescendantsOf(FindFirst(exp, "RUN_SET").value, "RUN"))
  {
    AbsorbRunsMembers(RunTally([], 0), RunElements(exp).value);
  }

  class ReadSample {
    const sampleId: string
    const layout: Layout
    var runs: seq<string>
    var spots: int
    /** The exact sum the `int` counter wraps. */
    ghost var total: int

    ghost predicate Valid()
      reads this
    {
      ValidTally(RunTally(runs, total)) && spots == Wrap32(total)
    }

    ghost function Tally(): RunTally
      reads this
    {
      RunTally(runs, total)
    }

    ghost function Desc(): SampleDesc
      reads this
    {
      SampleDesc(sampleId, layout, RunTally(runs, total))
    }

    /** The first half of the constructor: no runs so far. */
    constructor (id: string, lay: Layout)
      ensures Valid() && sampleId == id && layout == lay && runs == [] && spots == 0 && total == 0
    {
      sampleId := id;
      layout := lay;
      runs := [];
      spots := 0;
      total := 0;
    }

    /** The body of the `addRuns` loop once the spot count is parsed: `runs.add`
        decides whether the run is new, and only a new run adds its spots. */
    method AddRun(runId: string, n: int)
      requires Valid()
      modifies this
      ensures Valid()
      ensures Tally() == AddRunTo(old(Tally()), runId, n)
    {
      var newRun := runId !in runs;
      if newRun {
        runs := Insert(runs, runId);
        var newSpots := Wrap32(spots + n);
        ghost var newTotal := total + n;
        WrapStep(total, n, spots, newSpots, newTotal);
        spots := newSpots;
        total := newTotal;
      }
    }

    /** `addRuns`: the loop over the RUN elements, adding each new run and its spots. */
    method AddRuns(exp: Element) returns (r: Outcome)
      requires Valid()
      modifies this
      ensures Valid()
      ensures Absorbed(Tally(), r) == AddRunsSpec(old(Tally()), exp)
    {
      var runTags := RunElements(exp);
      if runTags.Err? {
        return Fail(runTags.error);
      }
      var rs := runTags.value;
      var i := 0;
      while i < |rs|
        invariant 0 <= i <= |rs| && Valid()
        invariant AbsorbRuns(Tally(), rs[i..]) == AddRunsSpec(old(Tally()), exp)
      {
        var runId := GetAttribute(rs[i], "accession");
        var runSpots := ParseInt(GetAttribute(rs[i], "total_spots"));
        ghost var before := Tally();
        AbsorbUnfold(before, rs[i..]);
        assert rs[i..][0] == rs[i] && rs[i..][1..] == rs[i + 1..];
        if runSpots.Err? {
          return Fail(runSpots.error);
        }
        AddRun(runId, runSpots.value);
        i := i + 1;
      }
      r := Pass;
    }
  }

  /** Adding to the wrapped counter wraps the exact sum. */
  lemma WrapStep(total: int, n: int, spots: int, newSpots: int, newTotal: int)
    requires spots == Wrap32(total)
    requires newSpots == Wrap32(spots + n) && newTotal == total + n
    ensures newSpots == Wrap32(newTotal)
  {
    Wrap32Add(total, n);
  }

  /** `create`: a `TagNotFoundException` or `NumberFormatException` comes back as
      the error; otherwise the new sample is the one `CreateSpec` describes. */
  method Create(sampleId: string, exp: Element) returns (r: Result<ReadSample>)
    ensures r.Ok? <==> CreateSpec(sampleId, exp).Ok?
    ensures r.Err? ==> r.error == CreateSpec(sampleId, exp).error
    ensures r.Ok? ==> fresh(r.value) && r.value.Valid() && r.value.Desc() == CreateSpec(sampleId, exp).value
    ensures r.Ok? ==> r.value.spots == JavaSpots(CreateSpec(sampleId, exp).value.tally)
  {
    var layout := LayoutOf(exp);
    if layout.Err? {
      return Err(layout.error);
    }
    var sample := new ReadSample(sampleId, layout.value);
    var outcome := sample.AddRuns(exp);
    if outcome.Fail? {
      return Err(outcome.error);
    }
    r := Ok(sample);
  }
}
