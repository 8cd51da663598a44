/** The project report: one line per NCBI study (project) whose title or abstract
    passes the keyword filter, with the accession, alias, library strategy,
    organism, taxon, PubMed id, title and abstract of the study. Records are
    collected by study accession, a later record of the same study replacing the
    earlier one, and printed at the end in accession order, the studies with a
    PubMed id first. */
module NcbiProjectReporter {
  import opened Util
  import opened Xml
  import opened SortedSets
  import opened NcbiTableReporter

  const HEADINGS: seq<string> := ["accession", "project", "strategy", "organism", "tax_id", "pubmed", "title", "description"]
  const EXPERIMENT_TAGS: map<string, string> := map["LIBRARY_STRATEGY" := "strategy"]
  const STUDY_ATTRIBUTES: map<string, string> := map["alias" := "project", "accession" := "accession"]
  const SAMPLE_TAGS: map<string, string> := map["SCIENTIFIC_NAME" := "organism", "TAXON_ID" := "tax_id"]
  const POOL_ATTRIBUTES: map<string, string> := map["organism" := "organism", "tax_id" := "tax_id"]
  const STUDY_LINKS_KEYS: map<string, string> := map["pubmed" := "pubmed"]

  // ---------------------------------------------------------------- one record

  /** The study attributes: its alias is the project, its accession the accession. */
  function WithStudy(m: map<string, string>, study: Element): map<string, string> {
    m["project" := GetAttribute(study, "alias")]["accession" := GetAttribute(study, "accession")]
  }

  /** The sample's organism name and taxon id, when there is a SAMPLE. */
  function WithSample(m: map<string, string>, sample: Option<Element>): map<string, string> {
    if sample.None? then m
    else m["organism" := GetXmlString(sample.value, "SCIENTIFIC_NAME")]["tax_id" := GetXmlString(sample.value, "TAXON_ID")]
  }

  /** The pool's organism and taxon attributes, consulted only when no organism
      name was found. */
  function WithPool(m: map<string, string>, pool: Option<Element>): map<string, string> {
    if !IsBlank(Get(m, "organism")) || pool.None? then m
    else m["organism" := GetAttribute(pool.value, "organism")]["tax_id" := GetAttribute(pool.value, "tax_id")]
  }

  /** The library strategy of the EXPERIMENT, when there is one. */
  function WithExperiment(m: map<string, string>, experiment: Option<Element>): map<string, string> {
    if experiment.None? then m else m["strategy" := GetXmlString(experiment.value, "LIBRARY_STRATEGY")]
  }

  /** The PubMed id among the study links, when the study has links. */
  function WithLinks(m: map<string, string>, links: Option<Element>): map<string, string> {
    if links.None? then m
    else m["pubmed" := PairValue(links.value.children, "DB", "ID", STUDY_LINKS_KEYS, m, "pubmed")]
  }

  /** The output map of a kept record, given the elements the record search found:
      the SAMPLE, POOL and EXPERIMENT of the package and the STUDY_LINKS of the study. */
  function RecordFields(study: Element, sample: Option<Element>, pool: Option<Element>,
                        experiment: Option<Element>, links: Option<Element>,
                        abstractText: string, titleText: string): map<string, string>
  {
    var m := WithStudy(map["description" := abstractText, "title" := titleText], study);
    WithLinks(WithExperiment(WithPool(WithSample(m, sample), pool), experiment), links)
  }

  function Abstract(study: Element): string {
    CleanHtml(GetXmlString(study, "STUDY_ABSTRACT"))
  }

  function Title(study: Element): string {
    CleanHtml(GetXmlString(study, "STUDY_TITLE"))
  }

  /** The output map `writeRecord` builds for a package with this STUDY. */
  function PackageFields(record: Element, study: Element): map<string, string> {
    RecordFields(study, FindFirst(record, "SAMPLE"), FindFirst(record, "POOL"), FindFirst(record, "EXPERIMENT"),
                 FindFirst(study, "STUDY_LINKS"), Abstract(study), Title(study))
  }

  /** What `writeRecord` stores for an EXPERIMENT_PACKAGE: nothing without a STUDY
      or when the keyword filter rejects the title and abstract. */
  function ProjectRecord(record: Element, keywords: seq<string>, minKeywords: int,
                         finds: (string, string) -> bool): (r: Option<map<string, string>>)
    ensures r.Some? <==> (FindFirst(record, "STUDY").Some? &&
      Keep(keywords, minKeywords, Title(FindFirst(record, "STUDY").value) + "\t" +
           Abstract(FindFirst(record, "STUDY").value), finds))
    ensures r.Some? ==> r.value == PackageFields(record, FindFirst(record, "STUDY").value)
  {
    match FindFirst(record, "STUDY")
    case None => None
    case Some(study) =>
      if Keep(keywords, minKeywords, Title(study) + "\t" + Abstract(study), finds)
      then Some(PackageFields(record, study))
      else None
  }

  /** A record is filed under its study's accession attribute, names that study's
      alias as the project, and carries the title and abstract it was given. */
  lemma RecordContents(study: Element, sample: Option<Element>, pool: Option<Element>,
                       experiment: Option<Element>, links: Option<Element>, abstractText: string, titleText: string)
    ensures var m := RecordFields(study, sample, pool, experiment, links, abstractText, titleText);
      && {"accession", "project", "title", "description"} <= m.Keys
      && m["accession"] == GetAttribute(study, "accession")
      && m["project"] == GetAttribute(study, "alias")
      && m["title"] == titleText && m["description"] == abstractText
  {
    var m1 := WithStudy(map["description" := abstractText, "title" := titleText], study);
    var m2 := WithPool(WithSample(m1, sample), pool);
    var m3 := WithExperiment(m2, experiment);
    assert m2["accession"] == m1["accession"] && m2["project"] == m1["project"];
    assert m2["title"] == m1["title"] && m2["description"] == m1["description"];
    assert m3["accession"] == m1["accession"] && m3["project"] == m1["project"];
    assert m3["title"] == m1["title"] && m3["description"] == m1["description"];
  }

  /** Every field of a record is a column of the report. */
  lemma RecordColumns(study: Element, sample: Option<Element>, pool: Option<Element>,
                      experiment: Option<Element>, links: Option<Element>, abstractText: string, titleText: string)
    ensures forall h :: h in RecordFields(study, sample, pool, experiment, links, abstractText, titleText) ==>
      h in HEADINGS
  {
    var m1 := WithStudy(map["description" := abstractText, "title" := titleText], study);
    var m2 := WithSample(m1, sample);
    var m3 := WithPool(m2, pool);
    var m4 := WithExperiment(m3, experiment);
    var m5 := WithLinks(m4, links);
    assert m1.Keys == {"description", "title", "project", "accession"};
    assert m2.Keys <= m1.Keys + {"organism", "tax_id"};
    assert m3.Keys <= m2.Keys + {"organism", "tax_id"};
    assert m4.Keys <= m3.Keys + {"strategy"};
    assert m5.Keys <= m4.Keys + {"pubmed"};
    HeadingsCover();
  }

  lemma HeadingsCover()
    ensures forall h :: h in {"accession", "project", "strategy", "organism", "tax_id", "pubmed", "title", "description"} ==>
      h in HEADINGS
  {
    assert HEADINGS[0] == "accession" && HEADINGS[1] == "project" && HEADINGS[2] == "strategy";
    assert HEADINGS[3] == "organism" && HEADINGS[4] == "tax_id" && HEADINGS[5] == "pubmed";
    assert HEADINGS[6] == "title" && HEADINGS[7] == "description";
  }

  /** The title and abstract columns of a stored record hold no complete HTML tag. */
  lemma RecordTextsClean(record: Element, keywords: seq<string>, minKeywords: int, finds: (string, string) -> bool)
    requires ProjectRecord(record, keywords, minKeywords, finds).Some?
    ensures var m := ProjectRecord(record, keywords, minKeywords, finds).value;
      NoTag(m["title"]) && NoTag(m["description"])
  {
    var study := FindFirst(record, "STUDY").value;
    RecordContents(study, FindFirst(record, "SAMPLE"), FindFirst(record, "POOL"), FindFirst(record, "EXPERIMENT"),
                   FindFirst(study, "STUDY_LINKS"), Abstract(study), Title(study));
    CleanHtmlNoTag(GetXmlString(study, "STUDY_TITLE"));
    CleanHtmlNoTag(GetXmlString(study, "STUDY_ABSTRACT"));
  }

  /** The organism comes from the SAMPLE when it names one; the POOL is the
      fallback only when it does not. */
  lemma RecordOrganism(study: Element, sample: Option<Element>, pool: Option<Element>,
                       experiment: Option<Element>, links: Option<Element>, abstractText: string, titleText: string)
    ensures var m := RecordFields(study, sample, pool, experiment, links, abstractText, titleText);
      && (sample.Some? && !IsBlank(GetXmlString(sample.value, "SCIENTIFIC_NAME")) ==>
            m["organism"] == GetXmlString(sample.value, "SCIENTIFIC_NAME"))
      && (sample.Some? && IsBlank(GetXmlString(sample.value, "SCIENTIFIC_NAME")) && pool.Some? ==>
            m["organism"] == GetAttribute(pool.value, "organism"))
      && (sample.None? && pool.Some? ==> m["organism"] == GetAttribute(pool.value, "organism"))
      && (sample.None? && pool.None? ==> "organism" !in m)
  {
    var m1 := WithStudy(map["description" := abstractText, "title" := titleText], study);
    assert m1.Keys == {"description", "title", "project", "accession"};
    var m2 := WithPool(WithSample(m1, sample), pool);
    var m3 := WithExperiment(m2, experiment);
    assert "organism" in m3 <==> "organism" in m2;
    assert "organism" in m2 ==> m3["organism"] == m2["organism"];
  }

  // ---------------------------------------------------------------- report order

  /** Java's `isBlank(outputMap.get("pubmed"))`: a missing id is blank. */
  predicate NoPubmed(m: map<string, string>) {
    IsBlank(Get(m, "pubmed"))
  }

  /** The record stored under a key (an empty map for a key not in the project map). */
  function RecordOf(pm: map<string, map<string, string>>, k: string): map<string, string> {
    if k in pm then pm[k] else map[]
  }

  /** The keys, in their order, whose records have a PubMed id. */
  function PubKeys(keys: seq<string>, pm: map<string, map<string, string>>): seq<string> {
    if keys == [] then []
    else
      var last := keys[|keys| - 1];
      PubKeys(keys[..|keys| - 1], pm) + (if NoPubmed(RecordOf(pm, last)) then [] else [last])
  }

  /** The keys, in their order, whose records have none. */
  function BlankKeys(keys: seq<string>, pm: map<string, map<string, string>>): seq<string> {
    if keys == [] then []
    else
      var last := keys[|keys| - 1];
      BlankKeys(keys[..|keys| - 1], pm) + (if NoPubmed(RecordOf(pm, last)) then [last] else [])
  }

  /** A key of the first group is one of the keys and has a PubMed id. */
  lemma {:induction false} PubKeysMembers(keys: seq<string>, pm: map<string, map<string, string>>)
    ensures forall k :: k in PubKeys(keys, pm) ==> k in keys && !NoPubmed(RecordOf(pm, k))
  {
    if keys != [] {
      var init, last := keys[..|keys| - 1], keys[|keys| - 1];
      PubKeysMembers(init, pm);
      assert keys == init + [last];
    }
  }

  /** A key of the second group is one of the keys and has none. */
  lemma {:induction false} BlankKeysMembers(keys: seq<string>, pm: map<string, map<string, string>>)
    ensures forall k :: k in BlankKeys(keys, pm) ==> k in keys && NoPubmed(RecordOf(pm, k))
  {
    if keys != [] {
      var init, last := keys[..|keys| - 1], keys[|keys| - 1];
      BlankKeysMembers(init, pm);
      assert keys == init + [last];
    }
  }

  /** The order `closeReport` prints the projects in. */
  function ReportKeys(keys: seq<string>, pm: map<string, map<string, string>>): seq<string> {
    PubKeys(keys, pm) + BlankKeys(keys, pm)
  }

  /** Every project is printed exactly once. */
  lemma ReportKeysPermutation(keys: seq<string>, pm: map<string, map<string, string>>)
    ensures multiset(ReportKeys(keys, pm)) == multiset(keys)
  {
    GroupsSplit(keys, pm);
  }

  lemma {:induction false} GroupsSplit(keys: seq<string>, pm: map<string, map<string, string>>)
    ensures multiset(PubKeys(keys, pm)) + multiset(BlankKeys(keys, pm)) == multiset(keys)
  {
    if keys != [] {
      var init, last := keys[..|keys| - 1], keys[|keys| - 1];
      GroupsSplit(init, pm);
      var pub, blank := PubKeys(init, pm), BlankKeys(init, pm);
      assert keys == init + [last];
      assert multiset(keys) == multiset(init) + multiset{last};
      if NoPubmed(RecordOf(pm, last)) {
        assert PubKeys(keys, pm) == pub;
        assert BlankKeys(keys, pm) == blank + [last];
        assert multiset(blank + [last]) == multiset(blank) + multiset{last};
      } else {
        assert PubKeys(keys, pm) == pub + [last];
        assert BlankKeys(keys, pm) == blank;
        assert multiset(pub + [last]) == multiset(pub) + multiset{last};
      }
    }
  }

  /** The projects without a PubMed id are exactly the ones printed after all
      those with one. */
  lemma ReportKeysBlankLast(keys: seq<string>, pm: map<string, map<string, string>>)
    ensures forall i :: 0 <= i < |ReportKeys(keys, pm)| ==>
      (NoPubmed(RecordOf(pm, ReportKeys(keys, pm)[i])) <==> i >= |PubKeys(keys, pm)|)
  {
    var r := ReportKeys(keys, pm);
    var p, b := PubKeys(keys, pm), BlankKeys(keys, pm);
    PubKeysMembers(keys, pm);
    BlankKeysMembers(keys, pm);
    forall i | 0 <= i < |r| ensures NoPubmed(RecordOf(pm, r[i])) <==> i >= |p| {
      if i < |p| {
        assert r[i] == p[i] && p[i] in p;
      } else {
        assert r[i] == b[i - |p|] && b[i - |p|] in b;
      }
    }
  }

  /** Within each group the projects keep the accession order. */
  lemma {:induction false} GroupsSorted(keys: seq<string>, pm: map<string, map<string, string>>)
    requires StrictlySorted(keys)
    ensures StrictlySorted(PubKeys(keys, pm)) && StrictlySorted(BlankKeys(keys, pm))
  {
    if keys != [] {
      var init, last := keys[..|keys| - 1], keys[|keys| - 1];
      assert StrictlySorted(init) by {
        forall i, j | 0 <= i < j < |init| ensures LexLess(init[i], init[j]) {
          assert init[i] == keys[i] && init[j] == keys[j];
        }
      }
      GroupsSorted(init, pm);
      forall k | k in init ensures LexLess(k, last) {
        var i :| 0 <= i < |init| && init[i] == k;
        assert keys[i] == k;
      }
      PubKeysMembers(init, pm);
      BlankKeysMembers(init, pm);
      SnocSorted(PubKeys(init, pm), if NoPubmed(RecordOf(pm, last)) then [] else [last], init, last);
      SnocSorted(BlankKeys(init, pm), if NoPubmed(RecordOf(pm, last)) then [last] else [], init, last);
    }
  }

  /** Appending a key above all earlier ones keeps a sorted list sorted. */
  lemma SnocSorted(s: seq<string>, t: seq<string>, init: seq<string>, last: string)
    requires StrictlySorted(s) && (forall k :: k in s ==> k in init)
    requires forall k :: k in init ==> LexLess(k, last)
    requires t == [] || t == [last]
    ensures StrictlySorted(s + t)
  {
    var u := s + t;
    forall i, j | 0 <= i < j < |u| ensures LexLess(u[i], u[j]) {
      if j >= |s| {
        assert u[i] == s[i] && s[i] in s;
      }
    }
  }

  // ---------------------------------------------------------------- output

  /** The printed line of a record: its value in each column, "" where it has none. */
  function Line(m: map<string, string>): string {
    Join(Row(HEADINGS, m), '\t')
  }

  /** The records of the keys, in order. */
  function Records(keys: seq<string>, pm: map<string, map<string, string>>): (r: seq<map<string, string>>)
    ensures |r| == |keys|
  {
    if keys == [] then [] else Records(keys[..|keys| - 1], pm) + [RecordOf(pm, keys[|keys| - 1])]
  }

  /** The lines of the records, in order. */
  function Lines(ms: seq<map<string, string>>): (r: seq<string>)
    ensures |r| == |ms|
  {
    if ms == [] then [] else Lines(ms[..|ms| - 1]) + [Line(ms[|ms| - 1])]
  }

  /** The lines `closeReport` prints in its first loop: those of the records with
      a PubMed id, in key order. */
  function PubLines(keys: seq<string>, pm: map<string, map<string, string>>): seq<string> {
    if keys == [] then []
    else
      var last := RecordOf(pm, keys[|keys| - 1]);
      PubLines(keys[..|keys| - 1], pm) + (if NoPubmed(last) then [] else [Line(last)])
  }

  /** The records `closeReport` delays: those without one, in key order. */
  function BlankRecords(keys: seq<string>, pm: map<string, map<string, string>>): seq<map<string, string>> {
    if keys == [] then []
    else
      var last := RecordOf(pm, keys[|keys| - 1]);
      BlankRecords(keys[..|keys| - 1], pm) + (if NoPubmed(last) then [last] else [])
  }

  /** The two loops print the records in the report order. */
  lemma {:induction false} ReportLines(keys: seq<string>, pm: map<string, map<string, string>>)
    ensures PubLines(keys, pm) + Lines(BlankRecords(keys, pm)) == Lines(Records(ReportKeys(keys, pm), pm))
  {
    PubLinesRecords(keys, pm);
    BlankRecordsKeys(keys, pm);
    RecordsAppend(PubKeys(keys, pm), BlankKeys(keys, pm), pm);
    LinesAppend(Records(PubKeys(keys, pm), pm), Records(BlankKeys(keys, pm), pm));
  }

  lemma {:induction false} PubLinesRecords(keys: seq<string>, pm: map<string, map<string, string>>)
    ensures PubLines(keys, pm) == Lines(Records(PubKeys(keys, pm), pm))
  {
    if keys != [] {
      var init, last := keys[..|keys| - 1], keys[|keys| - 1];
      PubLinesRecords(init, pm);
      if NoPubmed(RecordOf(pm, last)) {
        assert PubKeys(keys, pm) == PubKeys(init, pm);
      } else {
        assert PubKeys(keys, pm) == PubKeys(init, pm) + [last];
        RecordsSnoc(PubKeys(init, pm), last, pm);
        LinesSnoc(Records(PubKeys(init, pm), pm), RecordOf(pm, last));
      }
    }
  }

  lemma {:induction false} BlankRecordsKeys(keys: seq<string>, pm: map<string, map<string, string>>)
    ensures BlankRecords(keys, pm) == Records(BlankKeys(keys, pm), pm)
  {
    if keys != [] {
      var init, last := keys[..|keys| - 1], keys[|keys| - 1];
      BlankRecordsKeys(init, pm);
      if !NoPubmed(RecordOf(pm, last)) {
        assert BlankKeys(keys, pm) == BlankKeys(init, pm);
      } else {
        assert BlankKeys(keys, pm) == BlankKeys(init, pm) + [last];
        RecordsSnoc(BlankKeys(init, pm), last, pm);
      }
    }
  }

  lemma {:induction false} LinesAppend(ms: seq<map<string, string>>, ns: seq<map<string, string>>)
    ensures Lines(ms + ns) == Lines(ms) + Lines(ns)
    decreases |ns|
  {
    if ns == [] {
      assert ms + ns == ms;
    } else {
      var init := ns[..|ns| - 1];
      assert (ms + ns)[..|ms + ns| - 1] == ms + init;
      assert (ms + ns)[|ms + ns| - 1] == ns[|ns| - 1];
      LinesAppend(ms, init);
    }
  }

  lemma {:induction false} RecordsAppend(keys: seq<string>, more: seq<string>, pm: map<string, map<string, string>>)
    ensures Records(keys + more, pm) == Records(keys, pm) + Records(more, pm)
    decreases |more|
  {
    if more == [] {
      assert keys + more == keys;
    } else {
      var init := more[..|more| - 1];
      assert (keys + more)[..|keys + more| - 1] == keys + init;
      assert (keys + more)[|keys + more| - 1] == more[|more| - 1];
      RecordsAppend(keys, init, pm);
    }
  }

  lemma RecordsSnoc(keys: seq<string>, k: string, pm: map<string, map<string, string>>)
    ensures Records(keys + [k], pm) == Records(keys, pm) + [RecordOf(pm, k)]
  {
    assert (keys + [k])[..|keys|] == keys;
  }

  lemma LinesSnoc(ms: seq<map<string, string>>, m: map<string, string>)
    ensures Lines(ms + [m]) == Lines(ms) + [Line(m)]
  {
    assert (ms + [m])[..|ms|] == ms;
  }

  /** The line printed for each project is its record's line. */
  lemma {:induction false} LinesOfRecords(keys: seq<string>, pm: map<string, map<string, string>>, i: nat)
    requires i < |keys|
    ensures Lines(Records(keys, pm))[i] == Line(RecordOf(pm, keys[i]))
    decreases |keys|
  {
    var init := keys[..|keys| - 1];
    assert Records(keys, pm)[..|keys| - 1] == Records(init, pm);
    if i < |init| {
      LinesOfRecords(init, pm, i);
    }
  }

  /** `writeMap`: the buffer is cleared to "", filled from the map and printed. */
  method WriteMap(base: TableReporter, outLine: array<string>, outputMap: map<string, string>)
    requires outLine.Length == |HEADINGS|
    modifies outLine, base`report
    ensures outLine[..] == Row(HEADINGS, outputMap)
    ensures base.report == old(base.report) + [Line(outputMap)]
  {
    forall i | 0 <= i < outLine.Length {
      outLine[i] := "";
    }
    FormatLine(HEADINGS, outputMap, outLine);
    assert outLine[..] == Row(HEADINGS, outputMap);
    base.WriteLine(outLine[..]);
  }

  /** The second loop of `closeReport`: every queued record is printed in order. */
  method WriteAll(base: TableReporter, outLine: array<string>, records: seq<map<string, string>>)
    requires outLine.Length == |HEADINGS|
    modifies outLine, base`report
    ensures base.report == old(base.report) + Lines(records)
  {
    var j := 0;
    while j < |records|
      invariant 0 <= j <= |records|
      invariant base.report == old(base.report) + Lines(records[..j])
    {
      assert records[..j + 1] == records[..j] + [records[j]];
      LinesSnoc(records[..j], records[j]);
      WriteMap(base, outLine, records[j]);
      j := j + 1;
    }
    assert records[..j] == records;
  }

  // ---------------------------------------------------------------- the reporter

  class ProjectReporter {
    /** The table-report state this report extends. */
    const base: TableReporter
    /** The project map, by study accession. */
    var projectMap: map<string, map<string, string>>
    /** The accessions in the map's (tree) order. */
    var accessions: seq<string>

    /** The accessions are the map's keys, in order. */
    ghost predicate Valid()
      reads this
    {
      StrictlySorted(accessions) && Listed()
    }

    ghost predicate Listed()
      reads this
    {
      forall a :: a in accessions <==> a in projectMap
    }

    /** A report over the SRA table, with no projects yet; the keyword filtering is
        set up by `base.SetupKeywordFiltering`. */
    constructor (matcher: (string, string) -> bool)
      ensures Valid() && fresh(base)
      ensures base.table == "sra" && base.finds == matcher && base.report == []
      ensures projectMap == map[] && accessions == []
    {
      base := new TableReporter("sra", matcher);
      projectMap := map[];
      accessions := [];
    }

    /** `getHeader`: the headings joined by tabs. */
    function Header(): string {
      Join(HEADINGS, '\t')
    }

    /** `writeRecord`: a kept record is stored under its accession, replacing any
        earlier record of the same study. */
    method WriteRecord(record: Element)
      requires Valid()
      modifies this`projectMap, this`accessions
      ensures Valid()
      ensures var r := ProjectRecord(record, base.keywords, base.minKeywords, base.finds);
        projectMap == if r.Some? then old(projectMap)[r.value["accession"] := r.value] else old(projectMap)
    {
      var study := FindFirst(record, "STUDY");
      if study.Some? {
        var abstractText := CleanHtml(GetXmlString(study.value, "STUDY_ABSTRACT"));
        var titleText := CleanHtml(GetXmlString(study.value, "STUDY_TITLE"));
        var keep := base.CheckAbstract(titleText + "\t" + abstractText);
        if keep {
          var outputMap := BuildFields(record, study.value, abstractText, titleText);
          RecordContents(study.value, FindFirst(record, "SAMPLE"), FindFirst(record, "POOL"),
                         FindFirst(record, "EXPERIMENT"), FindFirst(study.value, "STUDY_LINKS"), abstractText, titleText);
          var accession := outputMap["accession"];
          projectMap := projectMap[accession := outputMap];
          accessions := Insert(accessions, accession);
        }
      }
    }

    /** `closeReport`: the projects with a PubMed id in accession order, then the
        delayed ones without, in the same order (`ReportLines`, `ReportKeys`). */
    method CloseReport()
      requires Listed()
      modifies base`report
      ensures base.report == old(base.report) + PubLines(accessions, projectMap) +
        Lines(BlankRecords(accessions, projectMap))
    {
      var outLine := new string[|HEADINGS|];
      var delayQueue := WritePublished(outLine);
      WriteAll(base, outLine, delayQueue);
    }

    /** The first loop of `closeReport`: records with a PubMed id are printed, the
        others queued. */
    method WritePublished(outLine: array<string>) returns (delayQueue: seq<map<string, string>>)
      requires Listed() && outLine.Length == |HEADINGS|
      modifies outLine, base`report
      ensures base.report == old(base.report) + PubLines(accessions, projectMap)
      ensures delayQueue == BlankRecords(accessions, projectMap)
    {
      delayQueue := [];
      var i := 0;
      while i < |accessions|
        invariant 0 <= i <= |accessions|
        invariant base.report == old(base.report) + PubLines(accessions[..i], projectMap)
        invariant delayQueue == BlankRecords(accessions[..i], projectMap)
      {
        var outputMap := projectMap[accessions[i]];
        assert outputMap == RecordOf(projectMap, accessions[i]);
        assert accessions[..i + 1][..i] == accessions[..i];
        if IsBlank(Get(outputMap, "pubmed")) {
          delayQueue := delayQueue + [outputMap];
        } else {
          WriteMap(base, outLine, outputMap);
        }
        i := i + 1;
      }
      assert accessions[..i] == accessions;
    }
  }

  /** The output map `writeRecord` fills for a kept record, helper by helper. */
  method BuildFields(record: Element, study: Element, abstractText: string, titleText: string)
    returns (outputMap: map<string, string>)
    ensures outputMap == RecordFields(study, FindFirst(record, "SAMPLE"), FindFirst(record, "POOL"),
                                      FindFirst(record, "EXPERIMENT"), FindFirst(study, "STUDY_LINKS"),
                                      abstractText, titleText)
  {
    outputMap := map["description" := abstractText];
    outputMap := outputMap["title" := titleText];
    outputMap := AddStudy(study, outputMap);
    var sample := FindFirst(record, "SAMPLE");
    outputMap := AddSample(sample, outputMap);
    var pool := FindFirst(record, "POOL");
    outputMap := AddPool(pool, outputMap);
    var experiment := FindFirst(record, "EXPERIMENT");
    outputMap := AddExperiment(experiment, outputMap);
    var studyLinks := FindFirst(study, "STUDY_LINKS");
    outputMap := AddLinks(studyLinks, outputMap);
  }

  method AddStudy(study: Element, m: map<string, string>) returns (out: map<string, string>)
    ensures out == WithStudy(m, study)
  {
    out := ProcessAttributes(study, STUDY_ATTRIBUTES, m);
    FilledPair(out, m, STUDY_ATTRIBUTES, k => GetAttribute(study, k), "alias", "accession");
  }

  method AddSample(sample: Option<Element>, m: map<string, string>) returns (out: map<string, string>)
    ensures out == WithSample(m, sample)
  {
    out := m;
    if sample.Some? {
      out := ProcessTags(sample.value, SAMPLE_TAGS, m);
      FilledPair(out, m, SAMPLE_TAGS, k => GetXmlString(sample.value, k), "SCIENTIFIC_NAME", "TAXON_ID");
    }
  }

  /** The pool is looked up only when no organism name was found. */
  method AddPool(pool: Option<Element>, m: map<string, string>) returns (out: map<string, string>)
    ensures out == WithPool(m, pool)
  {
    out := m;
    if IsBlank(Get(m, "organism")) {
      if pool.Some? {
        out := ProcessAttributes(pool.value, POOL_ATTRIBUTES, m);
        FilledPair(out, m, POOL_ATTRIBUTES, k => GetAttribute(pool.value, k), "organism", "tax_id");
      }
    }
  }

  method AddExperiment(experiment: Option<Element>, m: map<string, string>) returns (out: map<string, string>)
    ensures out == WithExperiment(m, experiment)
  {
    out := m;
    if experiment.Some? {
      out := ProcessTags(experiment.value, EXPERIMENT_TAGS, m);
      FilledSingle(out, m, EXPERIMENT_TAGS, k => GetXmlString(experiment.value, k), "LIBRARY_STRATEGY");
    }
  }

  lemma LinksKeysValues()
    ensures STUDY_LINKS_KEYS.Values == {"pubmed"}
  {
    assert STUDY_LINKS_KEYS["pubmed"] == "pubmed";
  }

  method AddLinks(studyLinks: Option<Element>, m: map<string, string>) returns (out: map<string, string>)
    ensures out == WithLinks(m, studyLinks)
  {
    out := m;
    if studyLinks.Some? {
      LinksKeysValues();
      out := ProcessKeyValuePairs(studyLinks.value, "DB", "ID", STUDY_LINKS_KEYS, m);
    }
  }
}
