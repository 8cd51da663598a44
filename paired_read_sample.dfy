/** The paired-read sample: the header classifier for `@(\S+)(\.[12])\s+.+` and the
    three output streams (`_1`, `_2` opened together, `_s` opened on first use). */
module PairedReadSample {
  import opened Util
  import opened Streams
  import opened SeqPart

  const PAIRED_ERROR: string := "Invalid header for paired sample: "

  /** The remainder after the read token matches `\s+.+`. */
  predicate MatchRest(r: string)
    decreases |r|
  {
    |r| >= 2 && IsRegexSpace(r[0]) && (NoLineTerminator(r[1..]) || MatchRest(r[1..]))
  }

  /** `\s+.+` read as a split: a non-empty run of spaces, then a non-empty tail
      without line terminators. */
  lemma {:induction false} MatchRestSplit(r: string)
    ensures MatchRest(r) <==>
      exists w :: 1 <= w < |r| && AllRegexSpace(r[..w]) && NoLineTerminator(r[w..])
    decreases |r|
  {
    if MatchRest(r) {
      if NoLineTerminator(r[1..]) {
        assert AllRegexSpace(r[..1]);
      } else {
        MatchRestSplit(r[1..]);
        var w' :| 1 <= w' < |r[1..]| && AllRegexSpace(r[1..][..w']) && NoLineTerminator(r[1..][w'..]);
        assert r[1..][w'..] == r[w' + 1..];
        var t := r[..w' + 1];
        assert AllRegexSpace(t) by {
          forall i | 0 <= i < |t| ensures IsRegexSpace(t[i]) {
            if i > 0 { assert t[i] == r[1..][..w'][i - 1]; }
          }
        }
      }
    }
    if w :| 1 <= w < |r| && AllRegexSpace(r[..w]) && NoLineTerminator(r[w..]) {
      assert IsRegexSpace(r[..w][0]);
      if w > 1 {
        assert r[1..][..w - 1] == r[..w][1..];
        assert r[1..][w - 1..] == r[w..];
        MatchRestSplit(r[1..]);
      } else {
        assert r[1..] == r[w..];
      }
    }
  }

  /** The header matches the whole paired-read pattern. */
  predicate AcceptsPaired(h: string) {
    |h| >= 1 && h[0] == '@' &&
    var k := SpaceFreeRun(h[1..]);
    k >= 3 && h[k - 1] == '.' && (h[k] == '1' || h[k] == '2') && MatchRest(h[k + 1..])
  }

  /** One way of matching the pattern: group 1 is `h[1..a]`, group 2 `h[a..a+2]`,
      `\s+` covers `h[a+2..w]` and `.+` covers `h[w..]`. */
  ghost predicate PairedMatch(h: string, a: nat, w: nat) {
    2 <= a && a + 2 < w < |h| && h[0] == '@' && NoRegexSpace(h[1..a]) &&
    h[a] == '.' && (h[a + 1] == '1' || h[a + 1] == '2') &&
    AllRegexSpace(h[a + 2..w]) && NoLineTerminator(h[w..])
  }

  /** The classifier accepts exactly the headers the regular expression matches,
      and every match has the same group 1: the read token minus its suffix. */
  lemma PairedAcceptsIffMatch(h: string)
    ensures AcceptsPaired(h) <==> exists a, w :: PairedMatch(h, a, w)
    ensures forall a, w :: PairedMatch(h, a, w) ==> a == SpaceFreeRun(h[1..]) - 1
  {
    forall a, w | PairedMatch(h, a, w) ensures a == SpaceFreeRun(h[1..]) - 1 && AcceptsPaired(h) {
      MatchGroups(h, a, w);
    }
    if AcceptsPaired(h) {
      var k := SpaceFreeRun(h[1..]);
      var r := h[k + 1..];
      MatchRestSplit(r);
      var w' :| 1 <= w' < |r| && AllRegexSpace(r[..w']) && NoLineTerminator(r[w'..]);
      assert r[..w'] == h[k + 1..k + 1 + w'];
      assert r[w'..] == h[k + 1 + w'..];
      var g := h[1..k - 1];
      assert NoRegexSpace(g) by {
        forall i | 0 <= i < |g| ensures !IsRegexSpace(g[i]) {
          assert g[i] == h[1..][i];
        }
      }
      assert PairedMatch(h, k - 1, k + 1 + w');
    }
  }

  lemma MatchGroups(h: string, a: nat, w: nat)
    requires PairedMatch(h, a, w)
    ensures SpaceFreeRun(h[1..]) == a + 1
    ensures AcceptsPaired(h)
  {
    var s := h[1..];
    var t := s[..a + 1];
    assert NoRegexSpace(t) by {
      forall i | 0 <= i < |t| ensures !IsRegexSpace(t[i]) {
        if i < a - 1 { assert t[i] == h[1..a][i]; }
      }
    }
    assert IsRegexSpace(s[a + 1]) by { assert s[a + 1] == h[a + 2..w][0]; }
    SpaceFreeRunExact(s, a + 1);
    var r := h[a + 2..];
    assert r[..w - a - 2] == h[a + 2..w];
    assert r[w - a - 2..] == h[w..];
    MatchRestSplit(r);
  }

  /** `processHeader` with the evidently intended type test: a `.1` token suffix
      makes a LEFT read and a `.2` suffix a RIGHT read. */
  function ProcessHeader(h: string): (r: Result<Header>)
    ensures r.Ok? <==> AcceptsPaired(h)
    ensures r.Err? ==> r.error == IOError(PAIRED_ERROR + Abbreviate(h, 30))
    ensures r.Ok? ==> r.value.role != SINGLETON
    ensures r.Ok? ==>
      h[1..1 + SpaceFreeRun(h[1..])] == r.value.id + (if r.value.role == LEFT then ".1" else ".2")
  {
    if !AcceptsPaired(h) then Err(IOError(PAIRED_ERROR + Abbreviate(h, 30)))
    else
      var k := SpaceFreeRun(h[1..]);
      var id := h[1..k - 1];
      var role := if h[k] == '1' then LEFT else RIGHT;
      assert h[1..1 + k] == id + [h[k - 1], h[k]];
      Ok(Header(id, role))
  }

  /** `processHeader` as written: group 2 (".1" or ".2") is compared with "1". */
  function ProcessHeaderAsWritten(h: string): (r: Result<Header>)
    ensures r.Ok? <==> AcceptsPaired(h)
  {
    if !AcceptsPaired(h) then Err(IOError(PAIRED_ERROR + Abbreviate(h, 30)))
    else
      var k := SpaceFreeRun(h[1..]);
      var group2 := h[k - 1..k + 1];
      Ok(Header(h[1..k - 1], if group2 == "1" then LEFT else RIGHT))
  }

  /** As written, no header is ever classified LEFT, and the only difference from
      the intended classifier is the type of `.1` reads. */
  lemma AsWrittenNeverLeft(h: string)
    ensures ProcessHeaderAsWritten(h).Ok? ==> ProcessHeaderAsWritten(h).value.role == RIGHT
    ensures ProcessHeaderAsWritten(h).Ok? ==>
      ProcessHeaderAsWritten(h).value.id == ProcessHeader(h).value.id
  {
    if AcceptsPaired(h) {
      var k := SpaceFreeRun(h[1..]);
      assert |h[k - 1..k + 1]| == 2;
    }
  }

  /** A concrete left-read header that the code as written calls RIGHT. */
  lemma AsWrittenMisclassifiesLeft()
    ensures ProcessHeader("@S1.1 x") == Ok(Header("S1", LEFT))
    ensures ProcessHeaderAsWritten("@S1.1 x") == Ok(Header("S1", RIGHT))
  {
    var h := "@S1.1 x";
    var s := h[1..];
    assert s == "S1.1 x";
    assert NoRegexSpace(s[..4]);
    SpaceFreeRunExact(s, 4);
    assert h[6..] == "x";
    assert NoLineTerminator(h[6..]);
    assert MatchRest(h[5..]);
    assert h[1..3] == "S1";
  }

  /** The stream half of the paired-read sample descriptor (its run data lives in
      `ReadSample`). */
  class PairedReadSample {
    const sampleId: string
    var leftStream: Stream
    var rightStream: Stream
    var singleStream: Stream
    var sampleDir: string
    var zipFlag: bool

    constructor (id: string)
      ensures sampleId == id
      ensures leftStream == Unopened && rightStream == Unopened && singleStream == Unopened
    {
      sampleId := id;
      leftStream := Unopened;
      rightStream := Unopened;
      singleStream := Unopened;
      sampleDir := "";
      zipFlag := false;
    }

    /** `openStreams`: opens `_1` and `_2`; the singleton file stays unopened until
        needed. */
    method OpenStreams(outDir: string, zipped: bool)
      modifies this
      ensures leftStream == Open(outDir, sampleId, "_1", zipped)
      ensures rightStream == Open(outDir, sampleId, "_2", zipped)
      ensures singleStream == Unopened
      ensures sampleDir == outDir && zipFlag == zipped
    {
      leftStream := Open(outDir, sampleId, "_1", zipped);
      rightStream := Open(outDir, sampleId, "_2", zipped);
      sampleDir := outDir;
      zipFlag := zipped;
      singleStream := Unopened;
    }

    /** `writePair`: the left read to `_1`, the right read to `_2`, nothing else. */
    method WritePair(leftRead: SeqPart, rightRead: SeqPart)
      requires leftStream.Opened? && rightStream.Opened?
      modifies this
      ensures leftStream == PrintAll(old(leftStream), leftRead.lines)
      ensures rightStream == PrintAll(old(rightStream), rightRead.lines)
      ensures singleStream == old(singleStream)
      ensures sampleDir == old(sampleDir) && zipFlag == old(zipFlag)
    {
      leftStream := Write(leftRead, leftStream);
      rightStream := Write(rightRead, rightStream);
    }

    /** `writeSingle`: opens `_s` on first use, then always writes to that file. */
    method WriteSingle(read: SeqPart)
      modifies this
      ensures old(singleStream).Unopened? ==>
        singleStream == PrintAll(Open(sampleDir, sampleId, "_s", zipFlag), read.lines)
      ensures old(singleStream).Opened? ==> singleStream == PrintAll(old(singleStream), read.lines)
      ensures leftStream == old(leftStream) && rightStream == old(rightStream)
      ensures sampleDir == old(sampleDir) && zipFlag == old(zipFlag)
    {
      if singleStream.Unopened? {
        singleStream := Open(sampleDir, sampleId, "_s", zipFlag);
      }
      singleStream := Write(read, singleStream);
    }

    /** `flushStreams`: the singleton file is flushed only if it was opened. */
    method FlushStreams()
      requires leftStream.Opened? && rightStream.Opened?
      modifies this
      ensures leftStream == Flush(old(leftStream)) && rightStream == Flush(old(rightStream))
      ensures singleStream == if old(singleStream).Opened? then Flush(old(singleStream)) else Unopened
      ensures sampleDir == old(sampleDir) && zipFlag == old(zipFlag)
    {
      leftStream := Flush(leftStream);
      rightStream := Flush(rightStream);
      if singleStream.Opened? {
        singleStream := Flush(singleStream);
      }
    }

    /** `closeStreams`: closes whatever was opened and leaves the rest alone. */
    method CloseStreams()
      modifies this
      ensures leftStream == if old(leftStream).Opened? then Close(old(leftStream)) else Unopened
      ensures rightStream == if old(rightStream).Opened? then Close(old(rightStream)) else Unopened
      ensures singleStream == if old(singleStream).Opened? then Close(old(singleStream)) else Unopened
      ensures sampleDir == old(sampleDir) && zipFlag == old(zipFlag)
    {
      if leftStream.Opened? {
        leftStream := Close(leftStream);
      }
      if rightStream.Opened? {
        rightStream := Close(rightStream);
      }
      if singleStream.Opened? {
        singleStream := Close(singleStream);
      }
    }
  }
}
