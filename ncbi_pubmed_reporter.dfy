/** The PubMed report: one line per article whose abstract passes the keyword
    filter, with its PubMed id, DOI link, PMC id, title and abstract. */
module NcbiPubmedReporter {
  import opened Util
  import opened Xml
  import opened NcbiTableReporter

  const HEADINGS: seq<string> := ["pubmed", "doi_link", "pmc_id", "title", "abstract"]
  const DOI_PREFIX: string := "https://dx.doi.org/"

  // ---------------------------------------------------------------- article ids

  /** An ArticleId element that gives an id of the type: its IdType is the type and
      its text is not empty. */
  predicate GivesId(e: Element, idType: string) {
    GetAttribute(e, "IdType") == idType && e.text != ""
  }

  /** The id the search of `getArticleId` stops at: the text of the first ArticleId
      element that gives one, or "". */
  function FirstId(ids: seq<Element>, idType: string): string {
    if ids == [] then ""
    else if GivesId(ids[0], idType) then ids[0].text
    else FirstId(ids[1..], idType)
  }

  /** `getArticleId` read as a value: the first id of the type among the ArticleId
      elements of the ArticleIdList of PubmedData; "" when any of them is missing. */
  function ArticleId(record: Element, idType: string): string {
    match FindFirst(record, "PubmedData")
    case None => ""
    case Some(data) =>
      match FindFirst(data, "ArticleIdList")
      case None => ""
      case Some(list) => FirstId(DescendantsOf(list, "ArticleId"), idType)
  }

  /** The first element that gives an id decides the result. */
  lemma {:induction false} FirstIdFound(ids: seq<Element>, idType: string, i: nat)
    requires i < |ids| && GivesId(ids[i], idType)
    requires forall j :: 0 <= j < i ==> !GivesId(ids[j], idType)
    ensures FirstId(ids, idType) == ids[i].text
  {
    if i > 0 {
      FirstIdFound(ids[1..], idType, i - 1);
    }
  }

  /** Without an element that gives an id the result is "". */
  lemma {:induction false} FirstIdNone(ids: seq<Element>, idType: string)
    requires forall j :: 0 <= j < |ids| ==> !GivesId(ids[j], idType)
    ensures FirstId(ids, idType) == ""
  {
    if ids != [] {
      FirstIdNone(ids[1..], idType);
    }
  }

  /** A non-empty result is the text of an element that gives an id, and every
      element before it gives none. */
  lemma {:induction false} FirstIdWitness(ids: seq<Element>, idType: string) returns (i: nat)
    requires FirstId(ids, idType) != ""
    ensures i < |ids| && GivesId(ids[i], idType) && FirstId(ids, idType) == ids[i].text
    ensures forall j :: 0 <= j < i ==> !GivesId(ids[j], idType)
  {
    if GivesId(ids[0], idType) {
      i := 0;
    } else {
      var k := FirstIdWitness(ids[1..], idType);
      i := k + 1;
    }
  }

  /** `getArticleId`: no id when PubmedData or its ArticleIdList is missing; else the
      ArticleId elements are read in order until one of the type yields some text. */
  method GetArticleId(record: Element, idType: string) returns (retVal: string)
    ensures retVal == ArticleId(record, idType)
  {
    retVal := "";
    var pubmedData := FindFirst(record, "PubmedData");
    if pubmedData.Some? {
      var idList := FindFirst(pubmedData.value, "ArticleIdList");
      if idList.Some? {
        var ids := DescendantsOf(idList.value, "ArticleId");
        var i := 0;
        while i < |ids| && retVal == ""
          invariant 0 <= i <= |ids|
          invariant retVal == "" ==> FirstId(ids, idType) == FirstId(ids[i..], idType)
          invariant retVal != "" ==> retVal == FirstId(ids, idType)
        {
          assert ids[i..][1..] == ids[i + 1..];
          if GetAttribute(ids[i], "IdType") == idType {
            retVal := ids[i].text;
          }
          i := i + 1;
        }
      }
    }
  }

  /** The DOI link of an article: the DOI resolver URL of its DOI, or "" when it has
      no non-blank DOI. */
  function DoiUrl(record: Element): string {
    var doi := ArticleId(record, "doi");
    if IsBlank(doi) then "" else DOI_PREFIX + doi
  }

  /** `getDoiUrl`. */
  method GetDoiUrl(record: Element) returns (retVal: string)
    ensures IsBlank(ArticleId(record, "doi")) ==> retVal == ""
    ensures !IsBlank(ArticleId(record, "doi")) ==>
      |DOI_PREFIX| <= |retVal| && retVal[..|DOI_PREFIX|] == DOI_PREFIX && retVal[|DOI_PREFIX|..] == ArticleId(record, "doi")
    ensures retVal == DoiUrl(record)
  {
    var doiString := GetArticleId(record, "doi");
    if IsBlank(doiString) {
      retVal := "";
    } else {
      retVal := DOI_PREFIX + doiString;
    }
  }

  // ---------------------------------------------------------------- one article

  /** The cleaned abstract the keyword filter reads. */
  function AbstractText(record: Element): string {
    CleanHtml(GetXmlString(record, "Abstract"))
  }

  /** The columns of a kept article. */
  function ArticleRow(record: Element): seq<string> {
    [GetXmlString(record, "PMID"), DoiUrl(record), ArticleId(record, "pmc"),
     CleanHtml(GetXmlString(record, "ArticleTitle")), AbstractText(record)]
  }

  /** What `writeRecord` prints for an article under a keyword filter. */
  function ArticleLines(record: Element, keywords: seq<string>, minKeywords: int,
                        finds: (string, string) -> bool): seq<string>
  {
    if Keep(keywords, minKeywords, AbstractText(record), finds) then [Join(ArticleRow(record), '\t')] else []
  }

  /** An article is printed, once, exactly when its cleaned abstract passes the
      filter; an unfiltered report prints every article. */
  lemma ArticleLinesKept(record: Element, keywords: seq<string>, minKeywords: int, finds: (string, string) -> bool)
    ensures |ArticleLines(record, keywords, minKeywords, finds)| <= 1
    ensures ArticleLines(record, keywords, minKeywords, finds) != [] <==>
      (minKeywords <= 0 || MatchCount(keywords, AbstractText(record), finds) >= minKeywords)
  {
  }

  /** The row has one column per heading, and its title and abstract hold no
      complete HTML tag. */
  lemma ArticleRowClean(record: Element)
    ensures |ArticleRow(record)| == |HEADINGS|
    ensures NoTag(ArticleRow(record)[3]) && NoTag(ArticleRow(record)[4])
  {
    CleanHtmlNoTag(GetXmlString(record, "ArticleTitle"));
    CleanHtmlNoTag(GetXmlString(record, "Abstract"));
  }

  // ---------------------------------------------------------------- the reporter

  class PubmedReporter {
    /** The table-report state this report extends. */
    const base: TableReporter

    /** A report over the PubMed table; the keyword filtering is set up by
        `base.SetupKeywordFiltering`. */
    constructor (matcher: (string, string) -> bool)
      ensures fresh(base) && base.table == "pubmed" && base.finds == matcher && base.report == []
    {
      base := new TableReporter("pubmed", matcher);
    }

    /** `getHeader`: the headings joined by tabs. */
    function Header(): string {
      Join(HEADINGS, '\t')
    }

    /** `writeRecord`: a kept article is printed as one line. */
    method WriteRecord(record: Element)
      modifies base`report
      ensures base.report == old(base.report) + ArticleLines(record, base.keywords, base.minKeywords, base.finds)
    {
      var abstractText := CleanHtml(GetXmlString(record, "Abstract"));
      var keep := base.CheckAbstract(abstractText);
      if keep {
        var title := CleanHtml(GetXmlString(record, "ArticleTitle"));
        var pubmed := GetXmlString(record, "PMID");
        var doiLink := GetDoiUrl(record);
        var pmcId := GetArticleId(record, "pmc");
        base.WriteLine([pubmed, doiLink, pmcId, title, abstractText]);
      }
    }
  }
}
