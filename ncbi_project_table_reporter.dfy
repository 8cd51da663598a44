/** The project table: one line per sequencing run of an experiment package,
    naming the run, the project (study accession) and the PubMed id of the study.
    A package without an EXPERIMENT, without runs or without a STUDY prints
    nothing, and neither does one whose study has neither a project nor a
    PubMed id. */
module NcbiProjectTableReporter {
  import opened Util
  import opened Xml
  import opened NcbiTableReporter

  const HEADINGS: seq<string> := ["sample_id", "project", "pubmed"]
  const STUDY_ATTRIBUTES: map<string, string> := map["accession" := "project"]
  const STUDY_LINKS_KEYS: map<string, string> := map["pubmed" := "pubmed"]
  const RUN_ATTRIBUTES: map<string, string> := map["accession" := "sample_id"]

  // ---------------------------------------------------------------- one package

  /** The output map of the study: its accession as the project, then the PubMed id
      among its links when it has links. */
  function StudyFields(study: Element): map<string, string> {
    var m := map["project" := GetAttribute(study, "accession")];
    match FindFirst(study, "STUDY_LINKS")
    case None => m
    case Some(links) => m["pubmed" := PairValue(links.children, "DB", "ID", STUDY_LINKS_KEYS, m, "pubmed")]
  }

  /** The `found` test: some column after the first holds a non-blank value. */
  predicate Found(row: seq<string>) {
    exists i :: 1 <= i < |row| && !IsBlank(row[i])
  }

  /** The line of one run: the run accession, then the two study columns. */
  function RunLine(run: Element, project: string, pubmed: string): string {
    Join([GetAttribute(run, "accession"), project, pubmed], '\t')
  }

  lemma RunLineText(run: Element, project: string, pubmed: string)
    ensures RunLine(run, project, pubmed) == GetAttribute(run, "accession") + "\t" + project + "\t" + pubmed
  {
    var a := GetAttribute(run, "accession");
    assert [a, project, pubmed][1..] == [project, pubmed];
    assert [project, pubmed][1..] == [pubmed];
    assert Join([project, pubmed], '\t') == project + "\t" + pubmed;
  }

  /** The lines of the runs, in order. */
  function RunLines(runs: seq<Element>, project: string, pubmed: string): (r: seq<string>)
    ensures |r| == |runs|
  {
    if runs == [] then []
    else RunLines(runs[..|runs| - 1], project, pubmed) + [RunLine(runs[|runs| - 1], project, pubmed)]
  }

  /** The elements `writeRecord` needs, when the package has them all: the STUDY and
      the runs of a RUN_SET with child nodes, under an EXPERIMENT package. */
  function Parts(record: Element): Option<(Element, seq<Element>)> {
    match (FindFirst(record, "EXPERIMENT"), FindFirst(record, "RUN_SET"), FindFirst(record, "STUDY"))
    case (Some(_), Some(runSet), Some(study)) =>
      if HasChildNodes(runSet) then Some((study, runSet.children)) else None
    case _ => None
  }

  /** Everything `writeRecord` prints for a package. */
  function RecordLines(record: Element): seq<string> {
    match Parts(record)
    case None => []
    case Some((study, runs)) =>
      var m := StudyFields(study);
      if Found(Row(HEADINGS, m)) then RunLines(runs, Get(m, "project"), Get(m, "pubmed")) else []
  }

  // ---------------------------------------------------------------- properties

  /** The `found` test passes exactly when the study has a non-blank accession or a
      non-blank PubMed id. */
  lemma FoundIff(study: Element)
    ensures Found(Row(HEADINGS, StudyFields(study))) <==>
      !IsBlank(GetAttribute(study, "accession")) || !IsBlank(Get(StudyFields(study), "pubmed"))
  {
    var row := Row(HEADINGS, StudyFields(study));
    assert row[1] == GetAttribute(study, "accession");
    assert row[2] == Get(StudyFields(study), "pubmed");
  }

  /** The PubMed column is the link value when the study has links and "" otherwise. */
  lemma StudyPubmed(study: Element)
    ensures FindFirst(study, "STUDY_LINKS").None? ==> Get(StudyFields(study), "pubmed") == ""
    ensures FindFirst(study, "STUDY_LINKS").Some? ==>
      (Get(StudyFields(study), "pubmed") ==
       PairValue(FindFirst(study, "STUDY_LINKS").value.children, "DB", "ID", STUDY_LINKS_KEYS,
                 map["project" := GetAttribute(study, "accession")], "pubmed"))
  {
  }

  /** The i-th line is the i-th run's accession in front of the same two columns. */
  lemma {:induction false} RunLinesAt(runs: seq<Element>, project: string, pubmed: string, i: nat)
    requires i < |runs|
    ensures RunLines(runs, project, pubmed)[i] ==
      GetAttribute(runs[i], "accession") + "\t" + project + "\t" + pubmed
  {
    var n := |runs| - 1;
    if i < n {
      RunLinesAt(runs[..n], project, pubmed, i);
    } else {
      assert RunLines(runs, project, pubmed)[i] == RunLine(runs[n], project, pubmed);
      RunLineText(runs[n], project, pubmed);
    }
  }

  /** A package that prints anything prints one line per run, and the lines differ
      only in their first column. */
  lemma RecordLinesShape(record: Element, i: nat)
    requires Parts(record).Some? && i < |RecordLines(record)|
    ensures var (study, runs) := Parts(record).value;
      && |RecordLines(record)| == |runs| && i < |runs|
      && RecordLines(record)[i] == GetAttribute(runs[i], "accession") + "\t" +
           GetAttribute(study, "accession") + "\t" + Get(StudyFields(study), "pubmed")
  {
    var (study, runs) := Parts(record).value;
    RunLinesAt(runs, Get(StudyFields(study), "project"), Get(StudyFields(study), "pubmed"), i);
  }

  /** A package prints one line per run exactly when it has all its parts and its
      study has a project or a PubMed id; otherwise it prints nothing. */
  lemma RecordLinesCount(record: Element)
    ensures Parts(record).None? ==> RecordLines(record) == []
    ensures Parts(record).Some? ==>
      var (study, runs) := Parts(record).value;
      |RecordLines(record)| ==
        if !IsBlank(GetAttribute(study, "accession")) || !IsBlank(Get(StudyFields(study), "pubmed"))
        then |runs| else 0
  {
    if Parts(record).Some? {
      FoundIff(Parts(record).value.0);
    }
  }

  // ---------------------------------------------------------------- the reporter

  class ProjectTableReporter {
    /** The table-report state this report extends. */
    const base: TableReporter

    /** A report over the SRA table. */
    constructor (matcher: (string, string) -> bool)
      ensures fresh(base) && base.table == "sra" && base.finds == matcher && base.report == []
    {
      base := new TableReporter("sra", matcher);
    }

    /** `getHeader`: the headings joined by tabs. */
    function Header(): string {
      Join(HEADINGS, '\t')
    }

    /** `writeRecord`: one line per run of a package whose study has data. */
    method WriteRecord(record: Element)
      modifies base`report
      ensures base.report == old(base.report) + RecordLines(record)
    {
      var experiment := FindFirst(record, "EXPERIMENT");
      var runSet := FindFirst(record, "RUN_SET");
      if experiment.None? || runSet.None? || !HasChildNodes(runSet.value) {
        return;
      }
      var study := FindFirst(record, "STUDY");
      if study.None? {
        return;
      }
      var outputMap := StudyMap(study.value);
      var outLine := new string[|HEADINGS|](_ => "");
      FormatLine(HEADINGS, outputMap, outLine);
      assert outLine[..] == Row(HEADINGS, outputMap);
      var found := Found(outLine[..]);
      if found {
        WriteRuns(runSet.value.children, outputMap, outLine);
      }
    }

    /** The loop over the runs: each run's accession goes into the first column of
        the same line, which is then printed. */
    method WriteRuns(runs: seq<Element>, m: map<string, string>, outLine: array<string>)
      requires outLine.Length == |HEADINGS|
      requires outLine[1] == Get(m, "project") && outLine[2] == Get(m, "pubmed")
      modifies outLine, base`report
      ensures base.report == old(base.report) + RunLines(runs, Get(m, "project"), Get(m, "pubmed"))
    {
      var project, pubmed := Get(m, "project"), Get(m, "pubmed");
      var outputMap := m;
      var i := 0;
      while i < |runs|
        invariant 0 <= i <= |runs|
        invariant outLine[1] == project && outLine[2] == pubmed
        invariant base.report == old(base.report) + RunLines(runs[..i], project, pubmed)
      {
        outputMap := RunMap(runs[i], outputMap);
        outLine[0] := outputMap["sample_id"];
        assert outLine[..] == [GetAttribute(runs[i], "accession"), project, pubmed];
        base.WriteLine(outLine[..]);
        assert runs[..i + 1][..i] == runs[..i];
        i := i + 1;
      }
      assert runs[..i] == runs;
    }
  }

  /** `processAttributes` of a run: its accession as the sample id. */
  method RunMap(run: Element, m: map<string, string>) returns (out: map<string, string>)
    ensures out == m["sample_id" := GetAttribute(run, "accession")]
  {
    out := ProcessAttributes(run, RUN_ATTRIBUTES, m);
    FilledSingle(out, m, RUN_ATTRIBUTES, k => GetAttribute(run, k), "accession");
  }

  /** The map the study fills: `processAttributes`, then `processKeyValuePairs` over
      its links when it has any. */
  method StudyMap(study: Element) returns (outputMap: map<string, string>)
    ensures outputMap == StudyFields(study)
  {
    outputMap := ProcessAttributes(study, STUDY_ATTRIBUTES, map[]);
    FilledSingle(outputMap, map[], STUDY_ATTRIBUTES, k => GetAttribute(study, k), "accession");
    var studyLinks := FindFirst(study, "STUDY_LINKS");
    if studyLinks.Some? {
      assert STUDY_LINKS_KEYS["pubmed"] == "pubmed";
      assert STUDY_LINKS_KEYS.Values == {"pubmed"};
      outputMap := ProcessKeyValuePairs(studyLinks.value, "DB", "ID", STUDY_LINKS_KEYS, outputMap);
    }
  }
}
