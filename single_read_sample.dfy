/** The single-stream sample: the header classifier for `@(\S+).*` and the one
    output file that takes every read. */
module SingleReadSample {
  import opened Util
  import opened Streams
  import opened SeqPart

  const SINGLE_ERROR: string := "Invalid header for unpaired sample: "

  /** The header matches the whole single-read pattern: '@', a non-empty greedy
      `\S+` token, and a remainder that `.*` can cover. */
  predicate AcceptsSingle(h: string) {
    |h| >= 1 && h[0] == '@' &&
    var k := SpaceFreeRun(h[1..]);
    k >= 1 && NoLineTerminator(h[1 + k..])
  }

  /** One way of matching the pattern: group 1 is `h[1..a]` and `.*` covers `h[a..]`. */
  ghost predicate SingleMatch(h: string, a: nat) {
    2 <= a <= |h| && h[0] == '@' && NoRegexSpace(h[1..a]) && NoLineTerminator(h[a..])
  }

  /** The classifier accepts exactly the headers the regular expression matches,
      and the greedy token it uses as the id is a valid group 1. */
  lemma SingleAcceptsIffMatch(h: string)
    ensures AcceptsSingle(h) <==> exists a :: SingleMatch(h, a)
    ensures AcceptsSingle(h) ==> SingleMatch(h, 1 + SpaceFreeRun(h[1..]))
  {
    if AcceptsSingle(h) {
      var k := SpaceFreeRun(h[1..]);
      var g := h[1..1 + k];
      assert NoRegexSpace(g) by {
        forall i | 0 <= i < |g| ensures !IsRegexSpace(g[i]) {
          assert g[i] == h[1..][i];
        }
      }
      assert SingleMatch(h, 1 + k);
    }
    if a: nat :| SingleMatch(h, a) {
      var k := SpaceFreeRun(h[1..]);
      assert h[1..a] == h[1..][..a - 1];
      assert a <= 1 + k;
      var tail := h[1 + k..];
      assert NoLineTerminator(tail) by {
        forall i | 0 <= i < |tail| ensures !IsLineTerminator(tail[i]) {
          assert tail[i] == h[a..][1 + k + i - a];
        }
      }
    }
  }

  /** `processHeader`: the id is the maximal whitespace-free run after '@' and the
      read is always a singleton. */
  function ProcessHeader(h: string): (r: Result<Header>)
    ensures r.Ok? <==> AcceptsSingle(h)
    ensures r.Err? ==> r.error == IOError(SINGLE_ERROR + Abbreviate(h, 30))
    ensures r.Ok? ==> r.value.role == SINGLETON
    ensures r.Ok? ==> r.value.id != [] && NoRegexSpace(r.value.id)
    ensures r.Ok? ==> 1 + |r.value.id| <= |h| && h[..1 + |r.value.id|] == "@" + r.value.id
    ensures r.Ok? ==> 1 + |r.value.id| == |h| || IsRegexSpace(h[1 + |r.value.id|])
  {
    if !AcceptsSingle(h) then Err(IOError(SINGLE_ERROR + Abbreviate(h, 30)))
    else
      var k := SpaceFreeRun(h[1..]);
      var id := h[1..1 + k];
      assert NoRegexSpace(id) by {
        forall i | 0 <= i < |id| ensures !IsRegexSpace(id[i]) {
          assert id[i] == h[1..][i];
        }
      }
      assert h[..1 + k] == "@" + id;
      Ok(Header(id, SINGLETON))
  }

  /** The stream half of the single-stream sample descriptor. */
  class SingleReadSample {
    const sampleId: string
    var outStream: Stream

    constructor (id: string)
      ensures sampleId == id && outStream == Unopened
    {
      sampleId := id;
      outStream := Unopened;
    }

    /** `openStreams`: exactly one file, with an empty suffix. */
    method OpenStreams(outDir: string, zipped: bool)
      modifies this
      ensures outStream == Open(outDir, sampleId, "", zipped)
    {
      outStream := Open(outDir, sampleId, "", zipped);
    }

    /** `writePair`: both reads go to the one file, left first. */
    method WritePair(leftRead: SeqPart, rightRead: SeqPart)
      requires outStream.Opened?
      modifies this
      ensures outStream == PrintAll(PrintAll(old(outStream), leftRead.lines), rightRead.lines)
    {
      outStream := Write(leftRead, outStream);
      outStream := Write(rightRead, outStream);
    }

    method WriteSingle(read: SeqPart)
      requires outStream.Opened?
      modifies this
      ensures outStream == PrintAll(old(outStream), read.lines)
    {
      outStream := Write(read, outStream);
    }

    method FlushStreams()
      requires outStream.Opened?
      modifies this
      ensures outStream == Flush(old(outStream))
    {
      outStream := Flush(outStream);
    }

    /** `closeStreams`: nothing happens when no file was opened. */
    method CloseStreams()
      modifies this
      ensures outStream == if old(outStream).Opened? then Close(old(outStream)) else Unopened
    {
      if outStream.Opened? {
        outStream := Close(outStream);
      }
    }
  }
}
