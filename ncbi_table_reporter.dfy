/** The shared part of the NCBI table reports: keyword filtering of abstracts, the
    helpers that fill an output map from an XML record, the positional output
    line, and HTML tag removal. User keyword patterns are regular expressions the
    model does not interpret: whether a pattern is found in a text is the
    reporter's `finds` relation, and whether a pattern compiles is given by
    `syntaxError`. */
module NcbiTableReporter {
  import opened Util
  import opened Xml

  const PATTERN_ERROR: string := "Error in abstract-filtering pattern: "
  const NEGATIVE_MODE_ERROR: string := "Invalid filter mode:  cannot be negative"
  const LARGE_MODE_ERROR: string := "Invalid filter mode:  cannot be greater than number of patterns."

  // ---------------------------------------------------------------- keyword filtering

  /** How many of the patterns are found in the text. */
  function MatchCount(keywords: seq<string>, text: string, finds: (string, string) -> bool): (n: nat)
    ensures n <= |keywords|
  {
    if keywords == [] then 0
    else (if finds(keywords[0], text) then 1 else 0) + MatchCount(keywords[1..], text, finds)
  }

  /** Every pattern is found exactly when the count reaches the number of patterns. */
  lemma {:induction false} MatchCountAll(keywords: seq<string>, text: string, finds: (string, string) -> bool)
    ensures MatchCount(keywords, text, finds) == |keywords| <==>
      forall i :: 0 <= i < |keywords| ==> finds(keywords[i], text)
  {
    if keywords != [] {
      MatchCountAll(keywords[1..], text, finds);
      if MatchCount(keywords, text, finds) == |keywords| {
        forall i | 0 <= i < |keywords| ensures finds(keywords[i], text) {
          if i > 0 { assert keywords[i] == keywords[1..][i - 1]; }
        }
      }
      if forall i :: 0 <= i < |keywords| ==> finds(keywords[i], text) {
        assert finds(keywords[0], text);
        forall i | 0 <= i < |keywords[1..]| ensures finds(keywords[1..][i], text) {
          assert keywords[1..][i] == keywords[i + 1];
        }
      }
    }
  }

  /** No pattern is found means a count of zero. */
  lemma {:induction false} MatchCountNone(keywords: seq<string>, text: string, finds: (string, string) -> bool)
    requires forall i :: 0 <= i < |keywords| ==> !finds(keywords[i], text)
    ensures MatchCount(keywords, text, finds) == 0
  {
    if keywords != [] {
      assert !finds(keywords[0], text);
      forall i | 0 <= i < |keywords[1..]| ensures !finds(keywords[1..][i], text) {
        assert keywords[1..][i] == keywords[i + 1];
      }
      MatchCountNone(keywords[1..], text, finds);
    }
  }

  /** Index of the first pattern that does not compile, or the number of patterns. */
  function FirstBadPattern(patterns: seq<string>, syntaxError: string -> Option<string>): (k: nat)
    ensures k <= |patterns|
    ensures forall i :: 0 <= i < k ==> syntaxError(patterns[i]).None?
    ensures k < |patterns| ==> syntaxError(patterns[k]).Some?
  {
    if patterns == [] || syntaxError(patterns[0]).Some? then 0
    else 1 + FirstBadPattern(patterns[1..], syntaxError)
  }

  /** The keep test with a given pattern list and threshold (`checkAbstract`). */
  function Keep(keywords: seq<string>, minKeywords: int, text: string, finds: (string, string) -> bool): bool {
    minKeywords <= 0 || MatchCount(keywords, text, finds) >= minKeywords
  }

  /** The output of a reporter: the lines printed to its writer, and the keyword
      filter set up for it. */
  class TableReporter {
    /** The name of the NCBI table the report reads. */
    const table: string
    /** Whether a (case-insensitive) pattern is found somewhere in a text. */
    const finds: (string, string) -> bool
    var keywords: seq<string>
    var minKeywords: int
    /** The lines printed to the report writer so far. */
    var report: seq<string>

    constructor (tableName: string, matcher: (string, string) -> bool)
      ensures table == tableName && finds == matcher
      ensures keywords == [] && minKeywords == 0 && report == []
    {
      table := tableName;
      finds := matcher;
      keywords := [];
      minKeywords := 0;
      report := [];
    }

    /** `setupKeywordFiltering`: every pattern is compiled; a filter mode of 0 asks
        for all of them; a negative mode or one above the number of patterns is an
        error. */
    method SetupKeywordFiltering(patterns: seq<string>, filterMode: int, syntaxError: string -> Option<string>)
      returns (r: Outcome)
      modifies this`keywords, this`minKeywords
      ensures r.Pass? <==> FirstBadPattern(patterns, syntaxError) == |patterns| && 0 <= filterMode <= |patterns|
      ensures FirstBadPattern(patterns, syntaxError) < |patterns| ==>
        r == Fail(ParseFailure(PATTERN_ERROR + syntaxError(patterns[FirstBadPattern(patterns, syntaxError)]).value))
      ensures FirstBadPattern(patterns, syntaxError) == |patterns| && filterMode < 0 ==>
        r == Fail(ParseFailure(NEGATIVE_MODE_ERROR))
      ensures FirstBadPattern(patterns, syntaxError) == |patterns| && filterMode > |patterns| ==>
        r == Fail(ParseFailure(LARGE_MODE_ERROR))
      ensures r.Pass? ==> keywords == patterns
      ensures r.Pass? ==> minKeywords == if filterMode == 0 then |patterns| else filterMode
    {
      keywords := [];
      var i := 0;
      while i < |patterns|
        invariant 0 <= i <= FirstBadPattern(patterns, syntaxError) && keywords == patterns[..i]
      {
        var error := syntaxError(patterns[i]);
        if error.Some? {
          return Fail(ParseFailure(PATTERN_ERROR + error.value));
        }
        keywords := keywords + [patterns[i]];
        i := i + 1;
      }
      assert patterns[..i] == patterns;
      minKeywords := filterMode;
      if minKeywords == 0 {
        minKeywords := |keywords|;
      }
      if minKeywords < 0 {
        return Fail(ParseFailure(NEGATIVE_MODE_ERROR));
      } else if minKeywords > |keywords| {
        return Fail(ParseFailure(LARGE_MODE_ERROR));
      }
      r := Pass;
    }

    /** `checkAbstract`: with a threshold the record is kept when enough patterns
        are found in the text; without one it is always kept. */
    function CheckAbstract(text: string): (keep: bool)
      reads this
      ensures minKeywords <= 0 ==> keep
      ensures minKeywords > 0 ==> (keep <==> MatchCount(keywords, text, finds) >= minKeywords)
    {
      Keep(keywords, minKeywords, text, finds)
    }

    /** `openReport`: a new writer, which starts with the header when the report has one. */
    method OpenReport(header: Option<string>)
      modifies this`report
      ensures report == if header.Some? then [header.value] else []
    {
      report := [];
      if header.Some? {
        report := report + [header.value];
      }
    }

    /** `writeLine`: the columns joined by tabs, as one line. */
    method WriteLine(outLine: seq<string>)
      modifies this`report
      ensures report == old(report) + [Join(outLine, '\t')]
    {
      report := report + [Join(outLine, '\t')];
    }

    /** `writeString`: one raw line. */
    method WriteString(outString: string)
      modifies this`report
      ensures report == old(report) + [outString]
    {
      report := report + [outString];
    }
  }

  /** The keyword filter as set up from a filter mode of 0: a record is kept exactly
      when every pattern is found (and always when there are no patterns). */
  lemma AllModeKeepsIffAllFound(patterns: seq<string>, text: string, finds: (string, string) -> bool)
    ensures Keep(patterns, |patterns|, text, finds) <==>
      forall i :: 0 <= i < |patterns| ==> finds(patterns[i], text)
  {
    MatchCountAll(patterns, text, finds);
  }

  /** A positive threshold rejects a text in which no pattern is found. */
  lemma NoMatchRejected(keywords: seq<string>, minKeywords: int, text: string, finds: (string, string) -> bool)
    requires minKeywords > 0
    requires forall i :: 0 <= i < |keywords| ==> !finds(keywords[i], text)
    ensures !Keep(keywords, minKeywords, text, finds)
  {
    MatchCountNone(keywords, text, finds);
  }

  // ---------------------------------------------------------------- positional lines

  /** `formatLine`: the slot of each header takes the map's value for it; slots
      whose header has no value keep what they held. */
  method FormatLine(headers: seq<string>, outputMap: map<string, string>, outLine: array<string>)
    requires |headers| <= outLine.Length
    modifies outLine
    ensures forall i :: 0 <= i < outLine.Length ==>
      outLine[i] == if i < |headers| && headers[i] in outputMap then outputMap[headers[i]] else old(outLine[i])
  {
    var i := 0;
    while i < |headers|
      invariant 0 <= i <= |headers|
      invariant forall j :: 0 <= j < outLine.Length ==>
        outLine[j] == if j < i && headers[j] in outputMap then outputMap[headers[j]] else old(outLine[j])
    {
      if headers[i] in outputMap {
        outLine[i] := outputMap[headers[i]];
      }
      i := i + 1;
    }
  }

  /** The line a map gives over a blank buffer: each header's value, "" where it has none. */
  function Row(headers: seq<string>, m: map<string, string>): (row: seq<string>)
    ensures |row| == |headers|
    ensures forall i :: 0 <= i < |headers| ==> row[i] == if headers[i] in m then m[headers[i]] else ""
  {
    seq(|headers|, i requires 0 <= i < |headers| => if headers[i] in m then m[headers[i]] else "")
  }

  /** `outputMap.get(key)` of a string map, with a null value read as "". */
  function Get(m: map<string, string>, key: string): string {
    if key in m then m[key] else ""
  }

  // ---------------------------------------------------------------- output-map fillers

  /** The headers the helper map sends the keys of `done` to. */
  ghost function Image(helper: map<string, string>, done: set<string>): set<string>
    requires done <= helper.Keys
  {
    set k | k in done :: helper[k]
  }

  /** `out` is `m` with the header of every key in `done` set to the value `lookup`
      gives for some key sent to that header (the last one visited, in the helper
      map's own order), and no other entry touched. */
  ghost predicate Filled(out: map<string, string>, m: map<string, string>, helper: map<string, string>,
                         lookup: string -> string, done: set<string>)
  {
    done <= helper.Keys &&
    out.Keys == m.Keys + Image(helper, done) &&
    (forall h :: h in m && h !in Image(helper, done) ==> out[h] == m[h]) &&
    (forall h :: h in Image(helper, done) ==> exists k :: k in done && helper[k] == h && out[h] == lookup(k))
  }

  /** A key whose header no other key shares gets exactly its own value. */
  lemma FilledExact(out: map<string, string>, m: map<string, string>, helper: map<string, string>,
                    lookup: string -> string, k: string)
    requires Filled(out, m, helper, lookup, helper.Keys)
    requires k in helper && forall j :: j in helper && helper[j] == helper[k] ==> j == k
    ensures helper[k] in out && out[helper[k]] == lookup(k)
  {
    assert helper[k] in Image(helper, helper.Keys);
  }

  /** With two keys sent to two different headers, the filled map is the two updates. */
  lemma FilledPair(out: map<string, string>, m: map<string, string>, helper: map<string, string>,
                   lookup: string -> string, k1: string, k2: string)
    requires helper.Keys == {k1, k2} && k1 != k2 && helper[k1] != helper[k2]
    requires Filled(out, m, helper, lookup, helper.Keys)
    ensures out == m[helper[k1] := lookup(k1)][helper[k2] := lookup(k2)]
  {
    FilledExact(out, m, helper, lookup, k1);
    FilledExact(out, m, helper, lookup, k2);
    assert Image(helper, helper.Keys) == {helper[k1], helper[k2]};
  }

  /** With one key, the filled map is the one update. */
  lemma FilledSingle(out: map<string, string>, m: map<string, string>, helper: map<string, string>,
                     lookup: string -> string, k: string)
    requires helper.Keys == {k}
    requires Filled(out, m, helper, lookup, helper.Keys)
    ensures out == m[helper[k] := lookup(k)]
  {
    FilledExact(out, m, helper, lookup, k);
    assert Image(helper, helper.Keys) == {helper[k]};
  }

  lemma ImageAll(helper: map<string, string>)
    ensures Image(helper, helper.Keys) == helper.Values
  {
  }

  /** The loop the three per-key fillers share: for each helper entry, its header
      is set to the value looked up for its key. */
  method PutEach(helper: map<string, string>, lookup: string -> string, m: map<string, string>)
    returns (out: map<string, string>)
    ensures Filled(out, m, helper, lookup, helper.Keys)
    ensures out.Keys == m.Keys + helper.Values
  {
    out := m;
    var todo := helper.Keys;
    ghost var done: set<string> := {};
    while todo != {}
      invariant todo + done == helper.Keys && todo !! done
      invariant Filled(out, m, helper, lookup, done)
      decreases todo
    {
      var k :| k in todo;
      ghost var before := out;
      out := out[helper[k] := lookup(k)];
      assert Image(helper, done + {k}) == Image(helper, done) + {helper[k]};
      forall h | h in Image(helper, done + {k})
        ensures exists j :: j in done + {k} && helper[j] == h && out[h] == lookup(j)
      {
        if h != helper[k] {
          var j :| j in done && helper[j] == h && before[h] == lookup(j);
          assert out[h] == lookup(j);
        } else {
          assert helper[k] == h && out[h] == lookup(k);
        }
      }
      done := done + {k};
      todo := todo - {k};
    }
    ImageAll(helper);
  }

  /** `processAttributes`: each helper header gets the element's attribute ("" when
      the attribute is absent). */
  method ProcessAttributes(element: Element, helper: map<string, string>, outputMap: map<string, string>)
    returns (out: map<string, string>)
    ensures Filled(out, outputMap, helper, k => GetAttribute(element, k), helper.Keys)
    ensures out.Keys == outputMap.Keys + helper.Values
  {
    out := PutEach(helper, k => GetAttribute(element, k), outputMap);
  }

  /** `processTags`: each helper header gets the text of the first descendant with
      the tag ("" when there is none). */
  method ProcessTags(element: Element, helper: map<string, string>, outputMap: map<string, string>)
    returns (out: map<string, string>)
    ensures Filled(out, outputMap, helper, k => GetXmlString(element, k), helper.Keys)
    ensures out.Keys == outputMap.Keys + helper.Values
  {
    out := PutEach(helper, k => GetXmlString(element, k), outputMap);
  }

  /** The tag name of the first child of the first descendant with the tag, or "". */
  function FirstChildTag(element: Element, tag: string): (r: string)
    ensures FindFirst(element, tag).None? ==> r == ""
    ensures FindFirst(element, tag).Some? && FindFirst(element, tag).value.children != [] ==>
      r == FindFirst(element, tag).value.children[0].tag
  {
    match FindFirst(element, tag)
    case None => ""
    case Some(t) => if |t.children| >= 1 then t.children[0].tag else ""
  }

  /** `processTagTags`: each helper header gets the name of the first child under
      the descendant with the tag. */
  method ProcessTagTags(element: Element, helper: map<string, string>, outputMap: map<string, string>)
    returns (out: map<string, string>)
    ensures Filled(out, outputMap, helper, k => FirstChildTag(element, k), helper.Keys)
    ensures out.Keys == outputMap.Keys + helper.Values
  {
    out := PutEach(helper, k => FirstChildTag(element, k), outputMap);
  }

  /** The stripped text of a child's first key tag, if it has one. */
  function KeyOf(child: Element, keyName: string): Option<string> {
    match FindFirst(child, keyName)
    case None => None
    case Some(x) => Some(Strip(x.text))
  }

  /** The stripped key texts of the children, in order. */
  function ChildKeys(cs: seq<Element>, keyName: string): (ks: seq<Option<string>>)
    ensures |ks| == |cs|
  {
    seq(|cs|, i requires 0 <= i < |cs| => KeyOf(cs[i], keyName))
  }

  /** The key is one of the helper's and is sent to the header `h`. */
  predicate Feeds(key: Option<string>, helper: map<string, string>, h: string) {
    key.Some? && key.value in helper && helper[key.value] == h
  }

  /** The position of the last key sent to `h`. */
  function LastFeed(ks: seq<Option<string>>, helper: map<string, string>, h: string): (r: Option<nat>)
    ensures r.Some? ==> r.value < |ks| && Feeds(ks[r.value], helper, h)
    ensures r.Some? ==> forall j :: r.value < j < |ks| ==> !Feeds(ks[j], helper, h)
    ensures r.None? ==> forall j :: 0 <= j < |ks| ==> !Feeds(ks[j], helper, h)
  {
    if ks == [] then None
    else if Feeds(ks[|ks| - 1], helper, h) then Some(|ks| - 1)
    else
      var r := LastFeed(ks[..|ks| - 1], helper, h);
      assert forall j :: 0 <= j < |ks| - 1 ==> ks[..|ks| - 1][j] == ks[j];
      r
  }

  /** The value texts of the children, in order. */
  function ChildValues(cs: seq<Element>, valueName: string): (vs: seq<string>)
    ensures |vs| == |cs|
  {
    seq(|cs|, i requires 0 <= i < |cs| => GetXmlString(cs[i], valueName))
  }

  /** What `processKeyValuePairs` leaves under a helper header: the value tag of the
      last child sending its key there, else the old entry, else "". */
  function PairValue(cs: seq<Element>, keyName: string, valueName: string, helper: map<string, string>,
                     m: map<string, string>, h: string): string
  {
    Chosen(ChildValues(cs, valueName), m, h, LastFeed(ChildKeys(cs, keyName), helper, h))
  }

  /** The chosen child's value, or the old entry ("" when absent). */
  function Chosen(vs: seq<string>, m: map<string, string>, h: string, r: Option<nat>): string
    requires r.Some? ==> r.value < |vs|
  {
    match r
    case Some(i) => vs[i]
    case None => Get(m, h)
  }

  /** One child of the loop: a helper key stores the child's value under its header. */
  function Store(out: map<string, string>, key: Option<string>, value: string, helper: map<string, string>):
    (r: map<string, string>)
    ensures key.Some? && key.value in helper ==> r == out[helper[key.value] := value]
    ensures !(key.Some? && key.value in helper) ==> r == out
  {
    if key.Some? && key.value in helper then out[helper[key.value] := value] else out
  }

  /** The state of the child loop after the first `i` children: which headers are
      present, and what each holds. */
  ghost predicate PairsInv(ks: seq<Option<string>>, vs: seq<string>, i: nat, helper: map<string, string>,
                           m: map<string, string>, out: map<string, string>)
    requires i <= |ks| == |vs|
  {
    PairsKeys(ks, i, helper, m, out) && PairsValues(ks, vs, i, helper, m, out)
  }

  ghost predicate PairsKeys(ks: seq<Option<string>>, i: nat, helper: map<string, string>,
                            m: map<string, string>, out: map<string, string>)
    requires i <= |ks|
  {
    forall h :: h in out <==> h in m || LastFeed(ks[..i], helper, h).Some?
  }

  ghost predicate PairsValues(ks: seq<Option<string>>, vs: seq<string>, i: nat, helper: map<string, string>,
                              m: map<string, string>, out: map<string, string>)
    requires i <= |ks| == |vs|
  {
    forall h :: h in out ==> out[h] == Chosen(vs, m, h, LastFeed(ks[..i], helper, h))
  }

  /** The last feed within one more key. */
  lemma LastFeedSnoc(ks: seq<Option<string>>, i: nat, helper: map<string, string>, h: string)
    requires i < |ks|
    ensures LastFeed(ks[..i + 1], helper, h) ==
      if Feeds(ks[i], helper, h) then Some(i) else LastFeed(ks[..i], helper, h)
  {
    assert ks[..i + 1][..i] == ks[..i];
  }

  /** Storing child `i` keeps the loop state. */
  lemma PairsStep(ks: seq<Option<string>>, vs: seq<string>, i: nat, helper: map<string, string>,
                  m: map<string, string>, out: map<string, string>)
    requires i < |ks| == |vs|
    requires PairsInv(ks, vs, i, helper, m, out)
    ensures PairsInv(ks, vs, i + 1, helper, m, Store(out, ks[i], vs[i], helper))
  {
    PairsStepKeys(ks, i, helper, m, out, vs[i]);
    PairsStepValues(ks, vs, i, helper, m, out);
  }

  lemma PairsStepKeys(ks: seq<Option<string>>, i: nat, helper: map<string, string>,
                      m: map<string, string>, out: map<string, string>, v: string)
    requires i < |ks|
    requires PairsKeys(ks, i, helper, m, out)
    ensures PairsKeys(ks, i + 1, helper, m, Store(out, ks[i], v, helper))
  {
    var out' := Store(out, ks[i], v, helper);
    forall h ensures h in out' <==> h in m || LastFeed(ks[..i + 1], helper, h).Some? {
      LastFeedSnoc(ks, i, helper, h);
    }
  }

  lemma PairsStepValues(ks: seq<Option<string>>, vs: seq<string>, i: nat, helper: map<string, string>,
                        m: map<string, string>, out: map<string, string>)
    requires i < |ks| == |vs|
    requires PairsValues(ks, vs, i, helper, m, out)
    ensures PairsValues(ks, vs, i + 1, helper, m, Store(out, ks[i], vs[i], helper))
  {
    var out' := Store(out, ks[i], vs[i], helper);
    forall h | h in out' ensures out'[h] == Chosen(vs, m, h, LastFeed(ks[..i + 1], helper, h)) {
      LastFeedSnoc(ks, i, helper, h);
    }
  }

  /** `processKeyValuePairs`: every child whose key tag names a helper key stores
      its value tag under that key's header, a later child overriding an earlier
      one; then every helper header still missing gets "". */
  method ProcessKeyValuePairs(element: Element, keyName: string, valueName: string,
                              helper: map<string, string>, outputMap: map<string, string>)
    returns (out: map<string, string>)
    ensures out.Keys == outputMap.Keys + helper.Values
    ensures forall h :: h in outputMap && h !in helper.Values ==> out[h] == outputMap[h]
    ensures forall h :: h in helper.Values ==>
      out[h] == PairValue(element.children, keyName, valueName, helper, outputMap, h)
  {
    var filled := StoreChildren(element.children, keyName, valueName, helper, outputMap);
    out := PutMissing(helper.Values, filled);
    StoreAllInv(element.children, keyName, valueName, |element.children|, helper, outputMap);
    assert element.children[..|element.children|] == element.children;
    PairsDone(ChildKeys(element.children, keyName), ChildValues(element.children, valueName),
              helper, outputMap, filled, out);
  }

  /** The two loops together: what the first stored and the second filled in. */
  lemma PairsDone(ks: seq<Option<string>>, vs: seq<string>, helper: map<string, string>,
                  m: map<string, string>, filled: map<string, string>, out: map<string, string>)
    requires |ks| == |vs|
    requires PairsInv(ks, vs, |ks|, helper, m, filled)
    requires out.Keys == filled.Keys + helper.Values
    requires forall h :: h in filled ==> out[h] == filled[h]
    requires forall h :: h in out && h !in filled ==> out[h] == ""
    ensures out.Keys == m.Keys + helper.Values
    ensures forall h :: h in m && h !in helper.Values ==> out[h] == m[h]
    ensures forall h :: h in helper.Values ==> out[h] == Chosen(vs, m, h, LastFeed(ks, helper, h))
  {
    assert ks[..|ks|] == ks;
    PairsFrame(ks, helper, m, filled);
  }

  /** The first loop of `processKeyValuePairs`, over the children in order. */
  method StoreChildren(children: seq<Element>, keyName: string, valueName: string,
                       helper: map<string, string>, outputMap: map<string, string>)
    returns (out: map<string, string>)
    ensures out == StoreAll(children, keyName, valueName, helper, outputMap)
  {
    out := outputMap;
    var i := 0;
    while i < |children|
      invariant 0 <= i <= |children|
      invariant out == StoreAll(children[..i], keyName, valueName, helper, outputMap)
    {
      var child := children[i];
      assert children[..i + 1][..i] == children[..i];
      out := Store(out, KeyOf(child, keyName), GetXmlString(child, valueName), helper);
      i := i + 1;
    }
    assert children[..i] == children;
  }

  /** Storing the children's pairs one after another, as the loop does. */
  function StoreAll(cs: seq<Element>, keyName: string, valueName: string, helper: map<string, string>,
                    m: map<string, string>): map<string, string>
  {
    if cs == [] then m
    else
      var last := cs[|cs| - 1];
      Store(StoreAll(cs[..|cs| - 1], keyName, valueName, helper, m), KeyOf(last, keyName),
            GetXmlString(last, valueName), helper)
  }

  /** After storing the first `i` children, each header holds the value of the last
      child whose key is sent to it. */
  lemma {:induction false} StoreAllInv(cs: seq<Element>, keyName: string, valueName: string, i: nat,
                                       helper: map<string, string>, m: map<string, string>)
    requires i <= |cs|
    ensures PairsInv(ChildKeys(cs, keyName), ChildValues(cs, valueName), i, helper, m,
                     StoreAll(cs[..i], keyName, valueName, helper, m))
  {
    if i > 0 {
      var ks, vs := ChildKeys(cs, keyName), ChildValues(cs, valueName);
      StoreAllInv(cs, keyName, valueName, i - 1, helper, m);
      assert cs[..i][..i - 1] == cs[..i - 1];
      assert ks[i - 1] == KeyOf(cs[i - 1], keyName) && vs[i - 1] == GetXmlString(cs[i - 1], valueName);
      PairsStep(ks, vs, i - 1, helper, m, StoreAll(cs[..i - 1], keyName, valueName, helper, m));
    }
  }

  /** After the child loop, only helper headers were added. */
  lemma PairsFrame(ks: seq<Option<string>>, helper: map<string, string>, outputMap: map<string, string>,
                   filled: map<string, string>)
    requires forall h :: h in filled <==> h in outputMap || LastFeed(ks, helper, h).Some?
    ensures forall h :: h in filled ==> h in outputMap || h in helper.Values
  {
    forall h | h in filled ensures h in outputMap || h in helper.Values {
      if h !in outputMap {
        var j := LastFeed(ks, helper, h).value;
        assert helper[ks[j].value] == h;
      }
    }
  }

  /** The second loop of `processKeyValuePairs`: "" for each header not yet present. */
  method PutMissing(headers: set<string>, m: map<string, string>) returns (out: map<string, string>)
    ensures out.Keys == m.Keys + headers
    ensures forall h :: h in m ==> out[h] == m[h]
    ensures forall h :: h in out && h !in m ==> out[h] == ""
  {
    out := m;
    var todo := headers;
    while todo != {}
      invariant todo <= headers
      invariant out.Keys == m.Keys + (headers - todo)
      invariant forall h :: h in m ==> out[h] == m[h]
      invariant forall h :: h in out && h !in m ==> out[h] == ""
      decreases todo
    {
      var header :| header in todo;
      if header !in out {
        out := out[header := ""];
      }
      todo := todo - {header};
    }
  }

  // ---------------------------------------------------------------- HTML tags

  /** Index of the first `>` or line terminator in `s`, or `|s|`: how far a lazy
      `.*?` can go before the closing `>`. */
  function TagEnd(s: string): (k: nat)
    ensures k <= |s|
    ensures forall i :: 0 <= i < k ==> s[i] != '>' && !IsLineTerminator(s[i])
    ensures k < |s| ==> s[k] == '>' || IsLineTerminator(s[k])
  {
    if s == [] || s[0] == '>' || IsLineTerminator(s[0]) then 0 else 1 + TagEnd(s[1..])
  }

  /** After a `<`, the text `s` closes a tag: a `>` comes before any line break. */
  predicate ClosesTag(s: string) {
    TagEnd(s) < |s| && s[TagEnd(s)] == '>'
  }

  /** `cleanHtml`: removes every `<...>` span that `\<.*?\>` matches, scanning left
      to right, and keeps every other character in order. */
  function CleanHtml(text: string): (r: string)
    ensures |r| <= |text|
    decreases |text|
  {
    if text == [] then []
    else if text[0] == '<' && ClosesTag(text[1..]) then CleanHtml(text[TagEnd(text[1..]) + 2..])
    else [text[0]] + CleanHtml(text[1..])
  }

  /** Text in which no `<` starts a complete tag. */
  predicate NoTag(s: string)
    decreases |s|
  {
    s == [] || ((s[0] == '<' ==> !ClosesTag(s[1..])) && NoTag(s[1..]))
  }

  /** A shortest tag and everything in it disappear. */
  lemma CleanHtmlDropsTag(inner: string, rest: string)
    requires '>' !in inner && NoLineTerminator(inner)
    ensures CleanHtml("<" + inner + ">" + rest) == CleanHtml(rest)
  {
    var s := "<" + inner + ">" + rest;
    assert s[1..] == inner + ">" + rest;
    TagEndPast(inner, ">" + rest);
    assert s[1..] == inner + (">" + rest);
    assert s[TagEnd(s[1..]) + 2..] == rest;
  }

  lemma {:induction false} TagEndPast(p: string, r: string)
    requires '>' !in p && NoLineTerminator(p)
    ensures TagEnd(p + r) == |p| + TagEnd(r)
    decreases |p|
  {
    if p == [] {
      assert p + r == r;
    } else {
      assert (p + r)[0] == p[0] && !IsLineTerminator(p[0]);
      assert (p + r)[1..] == p[1..] + r;
      TagEndPast(p[1..], r);
    }
  }

  /** Text without `<` is left as it is. */
  lemma {:induction false} CleanHtmlPlain(s: string)
    requires '<' !in s
    ensures CleanHtml(s) == s
    decreases |s|
  {
    if s != [] {
      assert '<' !in s[1..];
      CleanHtmlPlain(s[1..]);
    }
  }

  /** A stretch with no `>` and no line break, followed by a line break or the end,
      survives unchanged: no tag opened in it can close. */
  lemma {:induction false} CleanHtmlOpenStretch(p: string, r: string)
    requires '>' !in p && NoLineTerminator(p)
    requires r == [] || IsLineTerminator(r[0])
    ensures CleanHtml(p + r) == p + CleanHtml(r)
    decreases |p|
  {
    if p == [] {
      assert p + r == r;
    } else {
      var s := p + r;
      assert s[0] == p[0] && s[1..] == p[1..] + r;
      StretchOpensNoTag(p[1..], r);
      assert CleanHtml(s) == [p[0]] + CleanHtml(p[1..] + r);
      CleanHtmlOpenStretch(p[1..], r);
      assert [p[0]] + (p[1..] + CleanHtml(r)) == p + CleanHtml(r);
    }
  }

  /** Such a stretch closes no tag: the search for `>` stops at the line break or end. */
  lemma StretchOpensNoTag(p: string, r: string)
    requires '>' !in p && NoLineTerminator(p)
    requires r == [] || IsLineTerminator(r[0])
    ensures !ClosesTag(p + r)
  {
    TagEndPast(p, r);
    if r != [] {
      assert TagEnd(r) == 0;
      assert (p + r)[|p|] == r[0];
    }
  }

  /** A `<` that opens no tag still opens none once the text after it is cleaned:
      the line break or end that stops it survives cleaning. */
  lemma CleanHtmlKeepsOpen(t: string)
    requires !ClosesTag(t)
    ensures !ClosesTag(CleanHtml(t))
  {
    var k := TagEnd(t);
    var p, q := t[..k], t[k..];
    assert t == p + q;
    assert '>' !in p && NoLineTerminator(p) by {
      forall i | 0 <= i < |p| ensures p[i] != '>' && !IsLineTerminator(p[i]) {
        assert p[i] == t[i];
      }
    }
    assert q == [] || IsLineTerminator(q[0]) by {
      if q != [] {
        assert q[0] == t[k];
      }
    }
    CleanHtmlOpenStretch(p, q);
    var u := CleanHtml(q);
    assert u == [] || IsLineTerminator(u[0]) by {
      if q != [] {
        assert u == [q[0]] + CleanHtml(q[1..]);
      }
    }
    TagEndPast(p, u);
    if u != [] {
      assert (p + u)[k] == u[0];
    }
  }

  /** Cleaning leaves no complete tag behind. */
  lemma {:induction false} CleanHtmlNoTag(s: string)
    ensures NoTag(CleanHtml(s))
    decreases |s|
  {
    if s == [] {
    } else if s[0] == '<' && ClosesTag(s[1..]) {
      CleanHtmlNoTag(s[TagEnd(s[1..]) + 2..]);
    } else {
      var r := CleanHtml(s);
      assert r == [s[0]] + CleanHtml(s[1..]);
      assert r[1..] == CleanHtml(s[1..]);
      CleanHtmlNoTag(s[1..]);
      if s[0] == '<' {
        CleanHtmlKeepsOpen(s[1..]);
      }
    }
  }

  /** Text with no complete tag is left as it is. */
  lemma {:induction false} CleanHtmlFixed(s: string)
    requires NoTag(s)
    ensures CleanHtml(s) == s
    decreases |s|
  {
    if s != [] {
      CleanHtmlFixed(s[1..]);
    }
  }

  /** Cleaning twice is cleaning once. */
  lemma CleanHtmlIdempotent(s: string)
    ensures CleanHtml(CleanHtml(s)) == CleanHtml(s)
  {
    CleanHtmlNoTag(s);
    CleanHtmlFixed(CleanHtml(s));
  }
}
