/** The fetch command: the input accessions split into sample and run ids, the
    experiment packages fetched batch by batch and merged into one descriptor per
    sample, and every sample downloaded unless its marker says it is done. */
module NcbiFetchProcessor {
  import opened Util
  import opened SortedSets
  import opened Xml
  import opened Streams
  import opened ReadSample
  import NcbiDownloader

  const BATCH_ERROR: string := "Batch size must be at least 1."
  const MARKER_NAME: string := "summary.txt"

  /** `validateReaderParms`: the batch-size check. */
  function ValidateBatchSize(batchSize: int): (r: Outcome)
    ensures r.Pass? <==> batchSize >= 1
    ensures r.Fail? ==> r.error == ParseFailure(BATCH_ERROR)
  {
    if batchSize < 1 then Fail(ParseFailure(BATCH_ERROR)) else Pass
  }

  function InvalidIdMessage(id: string): string {
    "\"" + id + "\" is not a valid sample or run ID."
  }

  /** A run accession has 'R' as its third character (SRR, ERR, DRR); any other
      accession of four or more characters is taken as a sample. */
  predicate IsRunId(id: string) {
    |id| >= 4 && id[2] == 'R'
  }

  predicate IsSampleId(id: string) {
    |id| >= 4 && id[2] != 'R'
  }

  /** The run and sample sets hold exactly the run and sample ids of `ids`. */
  ghost predicate Partitioned(runSet: seq<string>, sampleSet: seq<string>, ids: seq<string>) {
    StrictlySorted(runSet) && StrictlySorted(sampleSet) &&
    (forall y :: y in runSet <==> y in ids && IsRunId(y)) &&
    (forall y :: y in sampleSet <==> y in ids && IsSampleId(y))
  }

  lemma PartitionStep(runSet: seq<string>, sampleSet: seq<string>, ids: seq<string>, id: string)
    requires Partitioned(runSet, sampleSet, ids) && |id| >= 4
    ensures IsRunId(id) ==> Partitioned(Insert(runSet, id), sampleSet, ids + [id])
    ensures !IsRunId(id) ==> Partitioned(runSet, Insert(sampleSet, id), ids + [id])
  {
  }

  /** The position of the first id too short to be an accession (`|ids|` when
      there is none). */
  function FirstShortId(ids: seq<string>): (k: nat)
    ensures k <= |ids|
    ensures forall j :: 0 <= j < k ==> |ids[j]| >= 4
    ensures k < |ids| ==> |ids[k]| < 4
    decreases |ids|
  {
    if ids == [] || |ids[0]| < 4 then 0 else 1 + FirstShortId(ids[1..])
  }

  // ---------------------------------------------------------------- merging

  datatype AccessionType = SAMPLE | RUN

  /** `AccessionType.getId`: the id the package is filed under. */
  function GetId(kind: AccessionType, exp: Element): Result<string> {
    if kind == SAMPLE then GetSampleId(exp) else GetRunId(exp)
  }

  predicate ValidDescs(m: map<string, SampleDesc>) {
    forall k :: k in m ==> m[k].id == k && ValidTally(m[k].tally)
  }

  datatype Merged = Merged(descs: map<string, SampleDesc>, outcome: Outcome)

  /** One pass of the `processAccessionBatch` loop: a new id creates its sample, a
      known id adds the package's runs to the sample already there. */
  function MergeExp(m: map<string, SampleDesc>, kind: AccessionType, exp: Element): (r: Merged)
    requires ValidDescs(m)
    ensures ValidDescs(r.descs)
  {
    match GetId(kind, exp)
    case Err(e) => Merged(m, Fail(e))
    case Ok(id) =>
      if id !in m then
        match CreateSpec(id, exp)
        case Err(e) => Merged(m, Fail(e))
        case Ok(d) => Merged(m[id := d], Pass)
      else
        var a := AddRunsSpec(m[id].tally, exp);
        Merged(m[id := m[id].(tally := a.tally)], a.outcome)
  }

  function MergeAll(m: map<string, SampleDesc>, kind: AccessionType, exps: seq<Element>): (r: Merged)
    requires ValidDescs(m)
    ensures ValidDescs(r.descs)
    decreases |exps|
  {
    if exps == [] then Merged(m, Pass)
    else
      var r := MergeExp(m, kind, exps[0]);
      if r.outcome.Fail? then r else MergeAll(r.descs, kind, exps[1..])
  }

  /** One package merged: the rest of the batch continues from the map it left,
      and an error ends the batch there. */
  lemma MergeAllStep(before: map<string, SampleDesc>, after: map<string, SampleDesc>, r: Outcome,
                     kind: AccessionType, exps: seq<Element>)
    requires ValidDescs(before) && ValidDescs(after) && exps != []
    requires Merged(after, r) == MergeExp(before, kind, exps[0])
    ensures r.Fail? ==> MergeAll(before, kind, exps) == Merged(after, r)
    ensures r.Pass? ==> MergeAll(before, kind, exps) == MergeAll(after, kind, exps[1..])
  {
  }

  /** `processAccessionBatch`: the packages the query returns for the batch, merged
      in order. */
  function MergeBatch(m: map<string, SampleDesc>, kind: AccessionType,
                      fetch: seq<string> -> Result<seq<Element>>, batch: seq<string>): (r: Merged)
    requires ValidDescs(m)
    ensures ValidDescs(r.descs)
  {
    match fetch(batch)
    case Err(e) => Merged(m, Fail(e))
    case Ok(exps) => MergeAll(m, kind, exps)
  }

  function MergeBatches(m: map<string, SampleDesc>, kind: AccessionType,
                        fetch: seq<string> -> Result<seq<Element>>, batches: seq<seq<string>>): (r: Merged)
    requires ValidDescs(m)
    ensures ValidDescs(r.descs)
    decreases |batches|
  {
    if batches == [] then Merged(m, Pass)
    else
      var r := MergeBatch(m, kind, fetch, batches[0]);
      if r.outcome.Fail? then r else MergeBatches(r.descs, kind, fetch, batches[1..])
  }

  /** One batch merged: the later batches continue from the map it left, and an
      error ends the run of batches there. */
  lemma MergeBatchesStep(before: map<string, SampleDesc>, after: map<string, SampleDesc>, r: Outcome,
                         kind: AccessionType, fetch: seq<string> -> Result<seq<Element>>,
                         batch: seq<string>, rest: seq<seq<string>>)
    requires ValidDescs(before) && ValidDescs(after)
    requires Merged(after, r) == MergeBatch(before, kind, fetch, batch)
    ensures r.Fail? ==> MergeBatches(before, kind, fetch, [batch] + rest) == Merged(after, r)
    ensures r.Pass? ==> MergeBatches(before, kind, fetch, [batch] + rest) == MergeBatches(after, kind, fetch, rest)
  {
    assert ([batch] + rest)[0] == batch && ([batch] + rest)[1..] == rest;
  }

  /** A sample, once in the map, stays there with its layout and its runs; only its
      run set can grow. */
  predicate Extends(m: map<string, SampleDesc>, m': map<string, SampleDesc>) {
    forall k :: k in m ==>
      k in m' && m'[k].layout == m[k].layout &&
      (forall y :: y in m[k].tally.runs ==> y in m'[k].tally.runs)
  }

  lemma MergeExpExtends(m: map<string, SampleDesc>, kind: AccessionType, exp: Element)
    requires ValidDescs(m)
    ensures Extends(m, MergeExp(m, kind, exp).descs)
    ensures GetId(kind, exp).Ok? && MergeExp(m, kind, exp).outcome.Pass? ==> GetId(kind, exp).value in MergeExp(m, kind, exp).descs
    ensures forall k :: k in MergeExp(m, kind, exp).descs ==> k in m || (GetId(kind, exp).Ok? && k == GetId(kind, exp).value)
  {
    if GetId(kind, exp).Ok? {
      var id := GetId(kind, exp).value;
      if id in m {
        match RunElements(exp)
        case Err(_) =>
        case Ok(rs) => AbsorbRunsMembers(m[id].tally, rs);
      }
    }
  }

  lemma ExtendsTransitive(a: map<string, SampleDesc>, b: map<string, SampleDesc>, c: map<string, SampleDesc>)
    requires Extends(a, b) && Extends(b, c)
    ensures Extends(a, c)
  {
  }

  lemma {:induction false} MergeAllExtends(m: map<string, SampleDesc>, kind: AccessionType, exps: seq<Element>)
    requires ValidDescs(m)
    ensures Extends(m, MergeAll(m, kind, exps).descs)
    decreases |exps|
  {
    if exps != [] {
      var r := MergeExp(m, kind, exps[0]);
      MergeExpExtends(m, kind, exps[0]);
      if r.outcome.Pass? {
        MergeAllExtends(r.descs, kind, exps[1..]);
        ExtendsTransitive(m, r.descs, MergeAll(r.descs, kind, exps[1..]).descs);
      }
    }
  }

  /** The sample map only grows, whatever the batches return. */
  lemma {:induction false} MergeBatchesExtends(m: map<string, SampleDesc>, kind: AccessionType,
                                               fetch: seq<string> -> Result<seq<Element>>, batches: seq<seq<string>>)
    requires ValidDescs(m)
    ensures Extends(m, MergeBatches(m, kind, fetch, batches).descs)
    decreases |batches|
  {
    if batches != [] {
      var r := MergeBatch(m, kind, fetch, batches[0]);
      if fetch(batches[0]).Ok? {
        MergeAllExtends(m, kind, fetch(batches[0]).value);
      }
      if r.outcome.Pass? {
        MergeBatchesExtends(r.descs, kind, fetch, batches[1..]);
        ExtendsTransitive(m, r.descs, MergeBatches(r.descs, kind, fetch, batches[1..]).descs);
      }
    }
  }

  /** One package merged without error: its sample is in the map, holding the runs
      it had (none for a new sample) plus the package's runs, with its layout taken
      from the package only when the sample is new; every other sample is as before. */
  lemma MergeExpRuns(m: map<string, SampleDesc>, kind: AccessionType, exp: Element)
    requires ValidDescs(m) && GetId(kind, exp).Ok? && MergeExp(m, kind, exp).outcome.Pass?
    ensures RunElements(exp).Ok?
    ensures var id := GetId(kind, exp).value;
      var r := MergeExp(m, kind, exp).descs;
      id in r &&
      (forall y :: y in r[id].tally.runs <==>
        (id in m && y in m[id].tally.runs) || y in RunIds(RunElements(exp).value)) &&
      r[id].layout == (if id in m then m[id].layout else LayoutOf(exp).value) &&
      (forall k :: k in m && k != id ==> k in r && r[k] == m[k])
  {
    var id := GetId(kind, exp).value;
    if id in m {
      AbsorbRunsMembers(m[id].tally, RunElements(exp).value);
    } else {
      CreateRuns(id, exp);
    }
  }

  lemma MergeAllPair(m: map<string, SampleDesc>, kind: AccessionType, exp1: Element, exp2: Element)
    requires ValidDescs(m) && MergeAll(m, kind, [exp1, exp2]).outcome.Pass?
    ensures MergeExp(m, kind, exp1).outcome.Pass?
    ensures MergeAll(m, kind, [exp1, exp2]) == MergeExp(MergeExp(m, kind, exp1).descs, kind, exp2)
  {
    var r1 := MergeExp(m, kind, exp1);
    assert [exp1, exp2][1..] == [exp2];
    assert MergeAll(m, kind, [exp1, exp2]) == if r1.outcome.Fail? then r1 else MergeAll(r1.descs, kind, [exp2]);
    if r1.outcome.Pass? {
      var r2 := MergeExp(r1.descs, kind, exp2);
      assert [exp2][1..] == [];
      assert MergeAll(r1.descs, kind, [exp2]) == if r2.outcome.Fail? then r2 else MergeAll(r2.descs, kind, []);
    }
  }

  /** Two packages of the same new sample give one descriptor holding the runs of
      both, with the layout of the first. */
  lemma SecondPackageAddsRuns(m: map<string, SampleDesc>, exp1: Element, exp2: Element)
    requires ValidDescs(m) && GetId(SAMPLE, exp1).Ok? && GetId(SAMPLE, exp2) == GetId(SAMPLE, exp1)
    requires GetId(SAMPLE, exp1).value !in m
    requires MergeAll(m, SAMPLE, [exp1, exp2]).outcome.Pass?
    ensures RunElements(exp1).Ok? && RunElements(exp2).Ok? && LayoutOf(exp1).Ok?
    ensures var id := GetId(SAMPLE, exp1).value;
      var r := MergeAll(m, SAMPLE, [exp1, exp2]).descs;
      id in r && r[id].layout == LayoutOf(exp1).value &&
      (forall y :: y in r[id].tally.runs <==>
        y in RunIds(RunElements(exp1).value) || y in RunIds(RunElements(exp2).value))
  {
    MergeAllPair(m, SAMPLE, exp1, exp2);
    var m1 := MergeExp(m, SAMPLE, exp1).descs;
    MergeExpRuns(m, SAMPLE, exp1);
    MergeExpRuns(m1, SAMPLE, exp2);
  }

  // ---------------------------------------------------------------- downloads

  /** What `processSample` does with one sample. */
  datatype SampleResult = Skipped | Downloaded(summary: string) | Failed(error: Error)

  function SampleDir(outDir: string, id: string): string {
    Path(outDir, id)
  }

  function MarkerPath(outDir: string, id: string): string {
    Path(SampleDir(outDir, id), MARKER_NAME)
  }

  /** Samples with different ids have different marker files. */
  lemma MarkerPathsDistinct(outDir: string, id1: string, id2: string)
    requires id1 != id2
    ensures MarkerPath(outDir, id1) != MarkerPath(outDir, id2)
  {
    var p1 := MarkerPath(outDir, id1);
    var p2 := MarkerPath(outDir, id2);
    if |id1| == |id2| {
      var n := |outDir| + 1;
      assert p1[n..n + |id1|] == id1;
      assert p2[n..n + |id2|] == id2;
    } else {
      assert |p1| != |p2|;
    }
  }

  /** The files a new downloader starts with. */
  function InitialTallies(dir: string, id: string, zipped: bool): (t: NcbiDownloader.Tallies)
    ensures NcbiDownloader.Writable(t)
  {
    NcbiDownloader.Tallies(Open(dir, id, "_1", zipped), Open(dir, id, "_2", zipped), Open(dir, id, "_s", zipped), 0, 0, 0, 0)
  }

  /** The downloader's run over a sample: its runs (kept sorted and distinct, as
      the downloader's `TreeSet` orders them), each dumped into the sample's own
      directory from fresh counters. */
  function SampleDownload(d: SampleDesc, outDir: string, zipped: bool, cmdPath: Option<string>,
                          dump: seq<string> -> NcbiDownloader.DumpResult): NcbiDownloader.Executed
  {
    NcbiDownloader.RunAll(HeaderProcessor(d.layout), cmdPath, dump,
                          InitialTallies(SampleDir(outDir, d.id), d.id, zipped), 0, d.tally.runs)
  }

  /** The `try` block of `processSample`: a failed download is a failure, a
      completed one is reported by its summary. */
  function DownloadResult(d: SampleDesc, outDir: string, zipped: bool, cmdPath: Option<string>,
                          dump: seq<string> -> NcbiDownloader.DumpResult): (r: SampleResult)
    ensures !r.Skipped?
  {
    var e := SampleDownload(d, outDir, zipped, cmdPath, dump);
    if e.outcome.Fail? then Failed(e.outcome.error)
    else Downloaded(NcbiDownloader.Summary(d.id, e.runCount, e.out.pairs, e.out.singles, e.out.errors))
  }

  /** `processSample` on a sample descriptor: skipped when only missing samples are
      wanted and the marker exists; otherwise downloaded, with any exception a
      failure. */
  function ProcessSampleSpec(d: SampleDesc, outDir: string, zipped: bool, missingFlag: bool,
                             markers: map<string, string>, cmdPath: Option<string>,
                             dump: seq<string> -> NcbiDownloader.DumpResult): (r: SampleResult)
    ensures missingFlag && MarkerPath(outDir, d.id) in markers ==> r == Skipped
  {
    if missingFlag && MarkerPath(outDir, d.id) in markers then Skipped
    else DownloadResult(d, outDir, zipped, cmdPath, dump)
  }

  /** A downloaded sample's summary counts each of its runs once. */
  lemma DownloadedCountsRuns(d: SampleDesc, outDir: string, zipped: bool, missingFlag: bool,
                             markers: map<string, string>, cmdPath: Option<string>,
                             dump: seq<string> -> NcbiDownloader.DumpResult)
    requires ValidTally(d.tally)
    requires ProcessSampleSpec(d, outDir, zipped, missingFlag, markers, cmdPath, dump).Downloaded?
    ensures var e := SampleDownload(d, outDir, zipped, cmdPath, dump);
      ProcessSampleSpec(d, outDir, zipped, missingFlag, markers, cmdPath, dump).summary ==
        NcbiDownloader.Summary(d.id, |d.tally.runs|, e.out.pairs, e.out.singles, e.out.errors)
  {
    NcbiDownloader.RunAllCount(HeaderProcessor(d.layout), cmdPath, dump,
                               InitialTallies(SampleDir(outDir, d.id), d.id, zipped), 0, d.tally.runs);
  }

  /** Without the SRA toolkit directory every sample that has runs and is not
      skipped fails. */
  lemma NoToolkitFails(d: SampleDesc, outDir: string, zipped: bool, missingFlag: bool,
                       markers: map<string, string>, dump: seq<string> -> NcbiDownloader.DumpResult)
    requires ValidTally(d.tally) && d.tally.runs != []
    requires !(missingFlag && MarkerPath(outDir, d.id) in markers)
    ensures ProcessSampleSpec(d, outDir, zipped, missingFlag, markers, None, dump) ==
      Failed(IOError(NcbiDownloader.SRALIB_ERROR))
  {
    NcbiDownloader.NoToolkit(HeaderProcessor(d.layout), dump,
                             InitialTallies(SampleDir(outDir, d.id), d.id, zipped), 0, d.tally.runs);
  }

  // ---------------------------------------------------------------- the command

  /** The two `analyzeAccessions` calls of `runReader`: the samples first, then the
      runs, each in batches; an error in the first skips the second. */
  function ReaderMerge(m: map<string, SampleDesc>, samples: seq<string>, runs: seq<string>, batchSize: nat,
                       fetch: seq<string> -> Result<seq<Element>>): (r: Merged)
    requires ValidDescs(m) && batchSize >= 1
    ensures ValidDescs(r.descs)
  {
    var a := MergeBatches(m, SAMPLE, fetch, Chunks(samples, batchSize));
    if a.outcome.Fail? then a else MergeBatches(a.descs, RUN, fetch, Chunks(runs, batchSize))
  }

  /** The sample map only grows across both passes. */
  lemma ReaderMergeExtends(m: map<string, SampleDesc>, samples: seq<string>, runs: seq<string>, batchSize: nat,
                           fetch: seq<string> -> Result<seq<Element>>)
    requires ValidDescs(m) && batchSize >= 1
    ensures Extends(m, ReaderMerge(m, samples, runs, batchSize, fetch).descs)
  {
    var a := MergeBatches(m, SAMPLE, fetch, Chunks(samples, batchSize));
    MergeBatchesExtends(m, SAMPLE, fetch, Chunks(samples, batchSize));
    if a.outcome.Pass? {
      MergeBatchesExtends(a.descs, RUN, fetch, Chunks(runs, batchSize));
      ExtendsTransitive(m, a.descs, ReaderMerge(m, samples, runs, batchSize, fetch).descs);
    }
  }

  /** The marker files after one sample's result. */
  function MarkAfter(markers: map<string, string>, outDir: string, id: string, r: SampleResult): map<string, string> {
    if r.Downloaded? then markers[MarkerPath(outDir, id) := r.summary] else markers
  }

  /** Each result is what processing its sample against `markers` gives. */
  ghost predicate ResultsAgree(results: map<string, SampleResult>, descs: map<string, SampleDesc>,
                               outDir: string, zipped: bool, missingFlag: bool, markers: map<string, string>,
                               cmdPath: Option<string>, dump: seq<string> -> NcbiDownloader.DumpResult)
  {
    results.Keys <= descs.Keys &&
    forall k {:trigger ProcessSampleSpec(descs[k], outDir, zipped, missingFlag, markers, cmdPath, dump)} ::
      k in results ==> results[k] == ProcessSampleSpec(descs[k], outDir, zipped, missingFlag, markers, cmdPath, dump)
  }

  lemma ResultsAgreeStep(results: map<string, SampleResult>, descs: map<string, SampleDesc>,
                         outDir: string, zipped: bool, missingFlag: bool, markers: map<string, string>,
                         cmdPath: Option<string>, dump: seq<string> -> NcbiDownloader.DumpResult,
                         k: string, res: SampleResult)
    requires ResultsAgree(results, descs, outDir, zipped, missingFlag, markers, cmdPath, dump)
    requires k in descs && res == ProcessSampleSpec(descs[k], outDir, zipped, missingFlag, markers, cmdPath, dump)
    ensures ResultsAgree(results[k := res], descs, outDir, zipped, missingFlag, markers, cmdPath, dump)
  {
    forall j | j in results[k := res]
      ensures results[k := res][j] == ProcessSampleSpec(descs[j], outDir, zipped, missingFlag, markers, cmdPath, dump)
    {
      if j != k {
        assert results[j] == ProcessSampleSpec(descs[j], outDir, zipped, missingFlag, markers, cmdPath, dump);
      }
    }
  }

  /** The marker file of every sample with a result is what that result leaves
      in `before`. */
  ghost predicate MarkedAs(markers: map<string, string>, before: map<string, string>, outDir: string,
                           results: map<string, SampleResult>)
  {
    forall k {:trigger MarkerPath(outDir, k)} :: k in results ==>
      var p := MarkerPath(outDir, k);
      (p in markers <==> p in MarkAfter(before, outDir, k, results[k])) &&
      (p in markers ==> markers[p] == MarkAfter(before, outDir, k, results[k])[p])
  }

  /** The marker files of the samples without a result yet are as they were. */
  ghost predicate UntouchedMarkers(markers: map<string, string>, before: map<string, string>, outDir: string,
                                   keys: set<string>, results: map<string, SampleResult>)
  {
    forall k {:trigger MarkerPath(outDir, k)} :: k in keys && k !in results ==>
      var p := MarkerPath(outDir, k);
      (p in markers <==> p in before) && (p in markers ==> markers[p] == before[p])
  }

  /** Whether a sample is skipped or downloaded depends on the marker files only
      through its own marker. */
  lemma ProcessSampleLocal(d: SampleDesc, outDir: string, zipped: bool, missingFlag: bool,
                           m1: map<string, string>, m2: map<string, string>, cmdPath: Option<string>,
                           dump: seq<string> -> NcbiDownloader.DumpResult)
    requires MarkerPath(outDir, d.id) in m1 <==> MarkerPath(outDir, d.id) in m2
    ensures ProcessSampleSpec(d, outDir, zipped, missingFlag, m1, cmdPath, dump) ==
      ProcessSampleSpec(d, outDir, zipped, missingFlag, m2, cmdPath, dump)
  {
  }

  /** Writing one more sample's marker keeps every other sample's marker: the
      marker paths of distinct samples differ. */
  lemma MarkStep(markers: map<string, string>, before: map<string, string>, outDir: string,
                 keys: set<string>, results: map<string, SampleResult>, k: string, res: SampleResult)
    requires k in keys && k !in results
    requires MarkedAs(markers, before, outDir, results)
    requires UntouchedMarkers(markers, before, outDir, keys, results)
    ensures MarkedAs(MarkAfter(markers, outDir, k, res), before, outDir, results[k := res])
    ensures UntouchedMarkers(MarkAfter(markers, outDir, k, res), before, outDir, keys, results[k := res])
  {
    forall j | j != k
      ensures MarkerPath(outDir, j) != MarkerPath(outDir, k)
    {
      MarkerPathsDistinct(outDir, j, k);
    }
  }

  /** The state of the `forEach` over the samples: every sample with a result got
      the result its descriptor calls for against the marker files of the start,
      and the marker files are what those results leave. */
  ghost predicate Processed(markers: map<string, string>, start: map<string, string>, outDir: string,
                            zipped: bool, missingFlag: bool, descs: map<string, SampleDesc>,
                            results: map<string, SampleResult>,
                            cmdPath: Option<string>, dump: seq<string> -> NcbiDownloader.DumpResult)
  {
    results.Keys <= descs.Keys &&
    ResultsAgree(results, descs, outDir, zipped, missingFlag, start, cmdPath, dump) &&
    MarkedAs(markers, start, outDir, results) &&
    UntouchedMarkers(markers, start, outDir, descs.Keys, results) &&
    (forall p :: p in start ==> p in markers)
  }

  /** One more sample processed, in any order. */
  lemma ProcessedStep(markers: map<string, string>, start: map<string, string>, outDir: string,
                      zipped: bool, missingFlag: bool, descs: map<string, SampleDesc>,
                      results: map<string, SampleResult>,
                      cmdPath: Option<string>, dump: seq<string> -> NcbiDownloader.DumpResult,
                      k: string, res: SampleResult)
    requires Processed(markers, start, outDir, zipped, missingFlag, descs, results, cmdPath, dump)
    requires k in descs && k !in results && descs[k].id == k
    requires res == ProcessSampleSpec(descs[k], outDir, zipped, missingFlag, markers, cmdPath, dump)
    ensures Processed(MarkAfter(markers, outDir, k, res), start, outDir, zipped, missingFlag, descs,
                      results[k := res], cmdPath, dump)
  {
    ProcessSampleLocal(descs[k], outDir, zipped, missingFlag, markers, start, cmdPath, dump);
    ResultsAgreeStep(results, descs, outDir, zipped, missingFlag, start, cmdPath, dump, k, res);
    MarkStep(markers, start, outDir, descs.Keys, results, k, res);
  }

  class NcbiFetchProcessor {
    const outDir: string
    const batchSize: int
    const missingFlag: bool
    const zipFlag: bool
    var sampleMap: map<string, ReadSample>
    var samples: seq<string>
    var runs: seq<string>
    var downloadCount: nat
    var skipCount: nat
    var failCount: nat
    /** The marker files on disk, by path, with their contents. */
    var markers: map<string, string>

    /** The descriptors of the sample objects, by id. */
    ghost var descs: map<string, SampleDesc>
    /** The sample objects the map may hold. */
    ghost var Repr: set<ReadSample>

    /** Each sample is valid, filed under its own id, and described by `descs`. */
    ghost predicate Valid()
      reads this, Repr
    {
      ValidDescs(descs) && sampleMap.Keys == descs.Keys &&
      forall k :: k in sampleMap ==>
        sampleMap[k] in Repr && sampleMap[k].sampleId == k && sampleMap[k].Valid() && sampleMap[k].Desc() == descs[k]
    }

    constructor (dir: string, size: int, missing: bool, zipped: bool, existing: map<string, string>)
      ensures Valid()
      ensures outDir == dir && batchSize == size && missingFlag == missing && zipFlag == zipped
      ensures markers == existing && sampleMap == map[] && samples == [] && runs == []
      ensures downloadCount == 0 && skipCount == 0 && failCount == 0
    {
      outDir := dir;
      batchSize := size;
      missingFlag := missing;
      zipFlag := zipped;
      markers := existing;
      sampleMap := map[];
      descs := map[];
      Repr := {};
      samples := [];
      runs := [];
      downloadCount := 0;
      skipCount := 0;
      failCount := 0;
    }

    /** `validateReaderParms`: the batch size is checked and the counters reset. */
    method ValidateReaderParms() returns (r: Outcome)
      modifies this
      ensures r == ValidateBatchSize(batchSize)
      ensures r.Pass? ==> downloadCount == 0 && skipCount == 0 && failCount == 0
      ensures r.Fail? ==> downloadCount == old(downloadCount) && skipCount == old(skipCount) && failCount == old(failCount)
      ensures sampleMap == old(sampleMap) && markers == old(markers)
      ensures samples == old(samples) && runs == old(runs)
    {
      if batchSize < 1 {
        return Fail(ParseFailure(BATCH_ERROR));
      }
      downloadCount := 0;
      failCount := 0;
      skipCount := 0;
      r := Pass;
    }

    /** `validateReaderInput`: every id of the input column into the run or the
        sample set; a short id is an error. */
    method ValidateReaderInput(ids: seq<string>) returns (r: Outcome)
      modifies this
      ensures Valid() && sampleMap == map[]
      ensures StrictlySorted(runs) && StrictlySorted(samples)
      ensures r.Pass? <==> FirstShortId(ids) == |ids|
      ensures r.Fail? ==> FirstShortId(ids) < |ids| && r.error == IOError(InvalidIdMessage(ids[FirstShortId(ids)]))
      ensures r.Pass? ==> Partitioned(runs, samples, ids)
      ensures markers == old(markers)
      ensures downloadCount == old(downloadCount) && skipCount == old(skipCount) && failCount == old(failCount)
    {
      sampleMap := map[];
      descs := map[];
      var runSet: seq<string> := [];
      var sampleSet: seq<string> := [];
      runs, samples := runSet, sampleSet;
      var i := 0;
      while i < |ids|
        invariant 0 <= i <= FirstShortId(ids) && Partitioned(runSet, sampleSet, ids[..i])
        invariant sampleMap == map[] && descs == map[] && markers == old(markers)
        invariant downloadCount == old(downloadCount) && skipCount == old(skipCount) && failCount == old(failCount)
      {
        var sampleId := ids[i];
        if |sampleId| < 4 {
          runs, samples := runSet, sampleSet;
          return Fail(IOError(InvalidIdMessage(sampleId)));
        }
        PartitionStep(runSet, sampleSet, ids[..i], sampleId);
        assert ids[..i + 1] == ids[..i] + [sampleId];
        if sampleId[2] == 'R' {
          runSet := Insert(runSet, sampleId);
        } else {
          sampleSet := Insert(sampleSet, sampleId);
        }
        i := i + 1;
      }
      assert ids[..i] == ids;
      runs, samples := runSet, sampleSet;
      r := Pass;
    }

    /** A package of a sample not yet in the map: `ReadSample.create` files a new
        sample under the id. */
    method AddNewSample(id: string, exp: Element) returns (r: Outcome)
      requires Valid() && id !in sampleMap
      modifies this`sampleMap, this`descs, this`Repr
      ensures Valid()
      ensures r.Pass? <==> CreateSpec(id, exp).Ok?
      ensures r.Fail? ==> r.error == CreateSpec(id, exp).error && descs == old(descs)
      ensures r.Pass? ==> descs == old(descs)[id := CreateSpec(id, exp).value]
      ensures fresh(Repr - old(Repr))
    {
      var created := Create(id, exp);
      if created.Err? {
        return Fail(created.error);
      }
      sampleMap := sampleMap[id := created.value];
      descs := descs[id := created.value.Desc()];
      Repr := Repr + {created.value};
      r := Pass;
    }

    /** A further package of a sample already in the map: its runs are added to the
        sample object in place. */
    method ExtendSample(id: string, exp: Element) returns (r: Outcome)
      requires Valid() && id in sampleMap
      modifies this`descs, sampleMap[id]
      ensures Valid()
      ensures var a := AddRunsSpec(old(descs)[id].tally, exp);
        r == a.outcome && descs == old(descs)[id := old(descs)[id].(tally := a.tally)]
      ensures sampleMap == old(sampleMap) && Repr == old(Repr)
    {
      var sample := sampleMap[id];
      r := sample.AddRuns(exp);
      ghost var d := sample.Desc();
      assert d == old(descs)[id].(tally := d.tally);
      descs := descs[id := d];
      forall k | k in sampleMap
        ensures sampleMap[k].Valid() && sampleMap[k].Desc() == descs[k]
      {
        if k != id {
          assert sampleMap[k] != sample;
        }
      }
    }

    /** The body of the `processAccessionBatch` loop for one package. */
    method AddPackage(exp: Element, kind: AccessionType) returns (r: Outcome)
      requires Valid()
      modifies this`sampleMap, this`descs, this`Repr, Repr
      ensures Valid()
      ensures Merged(descs, r) == MergeExp(old(descs), kind, exp)
      ensures fresh(Repr - old(Repr))
    {
      var inputId := GetId(kind, exp);
      if inputId.Err? {
        return Fail(inputId.error);
      }
      var id := inputId.value;
      if id !in sampleMap {
        r := AddNewSample(id, exp);
      } else {
        r := ExtendSample(id, exp);
      }
    }

    /** `processAccessionBatch`: fetches the packages of the batch and merges them
        into the sample map. */
    method ProcessAccessionBatch(idBatch: seq<string>, kind: AccessionType,
                                 fetch: seq<string> -> Result<seq<Element>>) returns (r: Outcome)
      requires Valid()
      modifies this`sampleMap, this`descs, this`Repr, Repr
      ensures Valid()
      ensures Merged(descs, r) == MergeBatch(old(descs), kind, fetch, idBatch)
      ensures fresh(Repr - old(Repr))
    {
      var expElements := fetch(idBatch);
      if expElements.Err? {
        return Fail(expElements.error);
      }
      var rest := expElements.value;
      ghost var goal := MergeAll(descs, kind, rest);
      while rest != []
        invariant Valid() && MergeAll(descs, kind, rest) == goal
        invariant fresh(Repr - old(Repr))
      {
        ghost var before := descs;
        r := AddPackage(rest[0], kind);
        MergeAllStep(before, descs, r, kind, rest);
        if r.Fail? {
          return;
        }
        rest := rest[1..];
      }
      r := Pass;
    }

    /** One call of `processAccessionBatch` from `analyzeAccessions`, seen as the
        first step of the merge over the remaining batches. */
    method SendBatch(idBatch: seq<string>, kind: AccessionType,
                     fetch: seq<string> -> Result<seq<Element>>, ghost rest: seq<seq<string>>) returns (r: Outcome)
      requires Valid()
      modifies this`sampleMap, this`descs, this`Repr, Repr
      ensures Valid() && fresh(Repr - old(Repr))
      ensures r.Fail? ==> MergeBatches(old(descs), kind, fetch, [idBatch] + rest) == Merged(descs, r)
      ensures r.Pass? ==> MergeBatches(old(descs), kind, fetch, [idBatch] + rest) == MergeBatches(descs, kind, fetch, rest)
    {
      r := ProcessAccessionBatch(idBatch, kind, fetch);
      MergeBatchesStep(old(descs), descs, r, kind, fetch, idBatch, rest);
    }

    /** `analyzeAccessions`: the sorted ids in batches of `batchSize`, a batch sent
        as soon as it is full and the last one at the end. */
    method AnalyzeAccessions(inSet: seq<string>, kind: AccessionType,
                             fetch: seq<string> -> Result<seq<Element>>) returns (r: Outcome)
      requires Valid() && batchSize >= 1
      modifies this`sampleMap, this`descs, this`Repr, Repr
      ensures Valid()
      ensures Merged(descs, r) == MergeBatches(old(descs), kind, fetch, Chunks(inSet, batchSize))
      ensures fresh(Repr - old(Repr))
    {
      var idBatch: seq<string> := [];
      ghost var start := 0;
      var i := 0;
      while i < |inSet|
        invariant 0 <= start <= i <= |inSet| && i - start <= batchSize && Valid()
        invariant idBatch == inSet[start..i]
        invariant MergeBatches(descs, kind, fetch, Chunks(inSet[start..], batchSize)) ==
          MergeBatches(old(descs), kind, fetch, Chunks(inSet, batchSize))
        invariant fresh(Repr - old(Repr))
      {
        if |idBatch| >= batchSize {
          ChunksAt(inSet, start, i, batchSize);
          r := SendBatch(idBatch, kind, fetch, Chunks(inSet[i..], batchSize));
          if r.Fail? {
            return;
          }
          start := i;
          idBatch := [];
        }
        idBatch := idBatch + [inSet[i]];
        i := i + 1;
      }
      if idBatch != [] {
        ChunksAt(inSet, start, i, batchSize);
        r := SendBatch(idBatch, kind, fetch, Chunks(inSet[i..], batchSize));
      } else {
        assert inSet[start..] == [];
        r := Pass;
      }
    }
    /** `processSample`: skip a sample whose marker exists when only missing samples
        are wanted; otherwise download it, write its marker from the summary and
        close the files; an exception counts as a failure. */
    method ProcessSample(sample: ReadSample, cmdPath: Option<string>,
                         dump: seq<string> -> NcbiDownloader.DumpResult) returns (res: SampleResult)
      requires sample.Valid()
      modifies this`markers, this`downloadCount, this`skipCount, this`failCount
      ensures res == ProcessSampleSpec(sample.Desc(), outDir, zipFlag, missingFlag, old(markers), cmdPath, dump)
      ensures markers == MarkAfter(old(markers), outDir, sample.sampleId, res)
      ensures downloadCount == old(downloadCount) + (if res.Downloaded? then 1 else 0)
      ensures skipCount == old(skipCount) + (if res.Skipped? then 1 else 0)
      ensures failCount == old(failCount) + (if res.Failed? then 1 else 0)
    {
      var markerFile := MarkerPath(outDir, sample.sampleId);
      if missingFlag && markerFile in markers {
        skipCount := skipCount + 1;
        return Skipped;
      }
      res := Download(sample, cmdPath, dump);
      if res.Failed? {
        failCount := failCount + 1;
        return;
      }
      markers := markers[markerFile := res.summary];
      downloadCount := downloadCount + 1;
    }

    /** The download of `processSample`: a downloader for the sample's runs in its
        own directory, executed, then closed whatever the outcome (closing the
        files before or after the marker is written changes neither). */
    method Download(sample: ReadSample, cmdPath: Option<string>,
                    dump: seq<string> -> NcbiDownloader.DumpResult) returns (res: SampleResult)
      requires sample.Valid()
      ensures res == DownloadResult(sample.Desc(), outDir, zipFlag, cmdPath, dump)
    {
      var id := sample.sampleId;
      var downloader := new NcbiDownloader.NcbiDownloader(id, SampleDir(outDir, id), zipFlag, sample.runs, sample.layout);
      SortedUnique(downloader.runList, sample.runs);
      var outcome := downloader.Execute(cmdPath, dump);
      downloader.Close();
      if outcome.Fail? {
        return Failed(outcome.error);
      }
      res := Downloaded(downloader.summaryString);
    }

    /** One pass of the `forEach`: the sample filed under `k` processed. */
    method ProcessOne(k: string, cmdPath: Option<string>, dump: seq<string> -> NcbiDownloader.DumpResult,
                      ghost start: map<string, string>, ghost results: map<string, SampleResult>)
      returns (res: SampleResult)
      requires Valid() && k in sampleMap && k !in results
      requires Processed(markers, start, outDir, zipFlag, missingFlag, descs, results, cmdPath, dump)
      modifies this`markers, this`downloadCount, this`skipCount, this`failCount
      ensures Valid() && sampleMap == old(sampleMap) && descs == old(descs)
      ensures Processed(markers, start, outDir, zipFlag, missingFlag, descs, results[k := res], cmdPath, dump)
      ensures downloadCount + skipCount + failCount == old(downloadCount + skipCount + failCount) + 1
      ensures samples == old(samples) && runs == old(runs)
    {
      res := ProcessSample(sampleMap[k], cmdPath, dump);
      ProcessedStep(old(markers), start, outDir, zipFlag, missingFlag, descs, results, cmdPath, dump, k, res);
    }

    /** The `forEach` over the sample map, in whatever order the map yields its
        samples: each is processed once, and since the samples' marker files are
        distinct the order does not matter to any of them. */
    method ProcessAll(cmdPath: Option<string>, dump: seq<string> -> NcbiDownloader.DumpResult)
      returns (ghost results: map<string, SampleResult>)
      requires Valid()
      modifies this
      ensures Valid() && sampleMap == old(sampleMap) && descs == old(descs)
      ensures results.Keys == sampleMap.Keys
      ensures Processed(markers, old(markers), outDir, zipFlag, missingFlag, descs, results, cmdPath, dump)
      ensures downloadCount + skipCount + failCount == old(downloadCount + skipCount + failCount) + |sampleMap|
      ensures samples == old(samples) && runs == old(runs)
    {
      var remaining := sampleMap.Keys;
      results := map[];
      while remaining != {}
        invariant remaining <= sampleMap.Keys
        invariant forall j :: j in sampleMap ==> (j in results <==> j !in remaining)
        invariant Valid() && sampleMap == old(sampleMap) && descs == old(descs)
        invariant Processed(markers, old(markers), outDir, zipFlag, missingFlag, descs, results, cmdPath, dump)
        invariant downloadCount + skipCount + failCount + |remaining| == old(downloadCount + skipCount + failCount) + |sampleMap|
        invariant samples == old(samples) && runs == old(runs)
        decreases remaining
      {
        var k :| k in remaining;
        var res := ProcessOne(k, cmdPath, dump, old(markers), results);
        results := results[k := res];
        remaining := remaining - {k};
      }
    }

    /** `runReader`: the sample ids, then the run ids, merged into the sample map,
        then every sample processed. */
    method RunReader(fetch: seq<string> -> Result<seq<Element>>, cmdPath: Option<string>,
                     dump: seq<string> -> NcbiDownloader.DumpResult)
      returns (r: Outcome, ghost results: map<string, SampleResult>)
      requires Valid() && batchSize >= 1
      modifies this, Repr
      ensures Valid()
      ensures Merged(descs, r) == ReaderMerge(old(descs), old(samples), old(runs), batchSize, fetch)
      ensures r.Fail? ==>
        markers == old(markers) && downloadCount == old(downloadCount) && skipCount == old(skipCount) && failCount == old(failCount)
      ensures r.Pass? ==> results.Keys == sampleMap.Keys
      ensures r.Pass? ==> Processed(markers, old(markers), outDir, zipFlag, missingFlag, descs, results, cmdPath, dump)
      ensures r.Pass? ==> downloadCount + skipCount + failCount == old(downloadCount + skipCount + failCount) + |sampleMap|
    {
      results := map[];
      r := AnalyzeAccessions(samples, SAMPLE, fetch);
      if r.Fail? {
        return;
      }
      r := AnalyzeAccessions(runs, RUN, fetch);
      if r.Fail? {
        return;
      }
      results := ProcessAll(cmdPath, dump);
    }
  }
}
