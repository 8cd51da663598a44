/** The per-sample downloader: the runs of a sample in sorted order, each dumped
    by the external FASTQ-DUMP tool, and the one-slot pairing engine that routes
    every record of the dump output to the left, right or singleton file. */
module NcbiDownloader {
  import opened Util
  import opened SortedSets
  import opened Streams
  import opened SeqPart
  import ReadSample

  // ---------------------------------------------------------------- pairing engine

  /** What the downloader has written and counted: its three files and the pair,
      singleton, error and read counters. */
  datatype Tallies = Tallies(left: Stream, right: Stream, single: Stream,
                             pairs: nat, singles: nat, errors: nat, records: nat)

  predicate Writable(t: Tallies) {
    t.left.Opened? && t.right.Opened? && t.single.Opened?
  }

  /** `writeSingleton`: the read to the singleton file, one more singleton. */
  function WriteSingletonTo(t: Tallies, read: SeqPart): (u: Tallies)
    requires Writable(t)
    ensures Writable(u)
  {
    t.(single := PrintAll(t.single, read.lines), singles := t.singles + 1)
  }

  /** `writePair`: left read to the left file, right read to the right file, one
      more pair. */
  function WritePairTo(t: Tallies, leftRead: SeqPart, rightRead: SeqPart): (u: Tallies)
    requires Writable(t)
    ensures Writable(u)
  {
    t.(left := PrintAll(t.left, leftRead.lines), right := PrintAll(t.right, rightRead.lines),
       pairs := t.pairs + 1)
  }

  /** The consumer's state: the buffered left read and the downloader's output. */
  datatype Pairing = Pairing(leftRead: Option<SeqPart>, out: Tallies)

  /** One pass of the consumer loop after a record was read, with the evidently
      intended handling of an unmatched RIGHT: both reads become singletons, one
      error is counted and the buffer is cleared. */
  function Route(p: Pairing, read: SeqPart): (q: Pairing)
    requires Writable(p.out)
    ensures Writable(q.out)
  {
    var t := p.out.(records := p.out.records + 1);
    match read.role
    case SINGLETON => Pairing(p.leftRead, WriteSingletonTo(t, read))
    case RIGHT =>
      if p.leftRead.None? then Pairing(None, WriteSingletonTo(t, read))
      else if Matches(p.leftRead.value, read) then Pairing(None, WritePairTo(t, p.leftRead.value, read))
      else
        var u := WriteSingletonTo(WriteSingletonTo(t, p.leftRead.value), read);
        Pairing(None, u.(errors := u.errors + 1))
    case LEFT =>
      if p.leftRead.Some? then
        var u := WriteSingletonTo(t, p.leftRead.value);
        Pairing(Some(read), u.(errors := u.errors + 1))
      else Pairing(Some(read), t)
  }

  /** The same pass as the source writes it: an unmatched RIGHT leaves the left read
      in the buffer. */
  function RouteAsWritten(p: Pairing, read: SeqPart): (q: Pairing)
    requires Writable(p.out)
    ensures Writable(q.out)
  {
    if read.role == RIGHT && p.leftRead.Some? && !Matches(p.leftRead.value, read) then
      var t := p.out.(records := p.out.records + 1);
      var u := WriteSingletonTo(WriteSingletonTo(t, p.leftRead.value), read);
      Pairing(p.leftRead, u.(errors := u.errors + 1))
    else Route(p, read)
  }

  datatype Consumed = Consumed(pairing: Pairing, outcome: Outcome)

  /** `SeqConsumer.run` over the dump output `input`: records are read with
      `SeqPart.read` and routed while lines remain; the first malformed record ends
      the loop with its exception. */
  function Consume(classify: string -> Result<Header>, p: Pairing, input: seq<string>): (c: Consumed)
    requires Writable(p.out)
    ensures Writable(c.pairing.out)
    decreases |input|
  {
    if input == [] then Consumed(p, Pass)
    else
      var o := ReadRecord(classify, input);
      if o.result.Err? then Consumed(p, Fail(o.result.error))
      else Consume(classify, Route(p, o.result.value), input[4..])
  }

  /** Records read, minus records accounted for: two per pair, one per singleton and
      one for a buffered left read. */
  function Balance(p: Pairing): int {
    2 * p.out.pairs + p.out.singles + (if p.leftRead.Some? then 1 else 0) - p.out.records
  }

  /** Every record read is written exactly once or is the buffered left read. */
  lemma RouteBalanced(p: Pairing, read: SeqPart)
    requires Writable(p.out)
    ensures Balance(Route(p, read)) == Balance(p)
  {
  }

  lemma {:induction false} ConsumeBalanced(classify: string -> Result<Header>, p: Pairing, input: seq<string>)
    requires Writable(p.out)
    ensures Balance(Consume(classify, p, input).pairing) == Balance(p)
    decreases |input|
  {
    if input != [] {
      var o := ReadRecord(classify, input);
      if o.result.Ok? {
        RouteBalanced(p, o.result.value);
        ConsumeBalanced(classify, Route(p, o.result.value), input[4..]);
      }
    }
  }

  /** The buffer holds the latest LEFT read until a RIGHT read resolves it; the
      error count rises exactly for a displaced left read and for an unmatched
      pair; the read count rises by one. A RIGHT read that matches the buffered
      left read is written with it as one pair; every other read is written as a
      singleton (a LEFT read only later), and so is a buffered left read that a
      LEFT or an unmatched RIGHT read displaces. */
  lemma RouteBuffer(p: Pairing, read: SeqPart)
    requires Writable(p.out)
    ensures read.role == LEFT ==> Route(p, read).leftRead == Some(read)
    ensures read.role == RIGHT ==> Route(p, read).leftRead == None
    ensures read.role == SINGLETON ==> Route(p, read).leftRead == p.leftRead
    ensures Route(p, read).out.records == p.out.records + 1
    ensures Route(p, read).out.errors ==
      p.out.errors + (if p.leftRead.Some? && (read.role == LEFT || (read.role == RIGHT && !Matches(p.leftRead.value, read))) then 1 else 0)
    ensures Route(p, read).out.pairs ==
      p.out.pairs + (if read.role == RIGHT && p.leftRead.Some? && Matches(p.leftRead.value, read) then 1 else 0)
    ensures Route(p, read).out.singles ==
      p.out.singles +
      (if read.role == SINGLETON || (read.role == RIGHT && !(p.leftRead.Some? && Matches(p.leftRead.value, read))) then 1 else 0) +
      (if p.leftRead.Some? && (read.role == LEFT || (read.role == RIGHT && !Matches(p.leftRead.value, read))) then 1 else 0)
    ensures read.role == RIGHT && p.leftRead.Some? && Matches(p.leftRead.value, read) ==>
      Route(p, read).out == WritePairTo(p.out.(records := p.out.records + 1), p.leftRead.value, read)
  {
  }

  /** What each branch writes, in order: a SINGLETON or a RIGHT with nothing
      buffered goes to the singleton file; an unmatched RIGHT writes the buffered
      left read and then itself as singletons; a LEFT writes a displaced left read
      as a singleton and writes nothing of its own. */
  lemma RouteWrites(p: Pairing, read: SeqPart)
    requires Writable(p.out)
    ensures var t := p.out.(records := p.out.records + 1);
      (read.role == SINGLETON ==> Route(p, read).out == WriteSingletonTo(t, read)) &&
      (read.role == RIGHT && p.leftRead.None? ==> Route(p, read).out == WriteSingletonTo(t, read)) &&
      (read.role == RIGHT && p.leftRead.Some? && !Matches(p.leftRead.value, read) ==>
        var u := WriteSingletonTo(WriteSingletonTo(t, p.leftRead.value), read);
        Route(p, read).out == u.(errors := u.errors + 1)) &&
      (read.role == LEFT && p.leftRead.Some? ==>
        var u := WriteSingletonTo(t, p.leftRead.value);
        Route(p, read).out == u.(errors := u.errors + 1)) &&
      (read.role == LEFT && p.leftRead.None? ==> Route(p, read).out == t)
  {
  }

  /** A LEFT read followed by its RIGHT mate, from an empty buffer, writes exactly
      one pair and no singleton. */
  lemma LeftThenRight(t: Tallies, l: SeqPart, r: SeqPart)
    requires Writable(t) && l.role == LEFT && r.role == RIGHT && Matches(l, r)
    ensures var q := Route(Route(Pairing(None, t), l), r);
      q.leftRead == None && q.out == WritePairTo(t.(records := t.records + 2), l, r)
  {
  }

  /** A record as `SeqPart.read` builds it has four lines. */
  predicate FourLines(b: Option<SeqPart>) {
    b.Some? ==> |b.value.lines| == 4
  }

  predicate NotClosed(t: Tallies) {
    Writable(t) && !t.left.closed && !t.right.closed && !t.single.closed
  }

  /** The files grow by four lines per pair (left and right) and per singleton. */
  predicate LinesTrack(t0: Tallies, t: Tallies) {
    Writable(t0) && Writable(t) &&
    t0.pairs <= t.pairs && t0.singles <= t.singles &&
    |t.left.lines| == |t0.left.lines| + 4 * (t.pairs - t0.pairs) &&
    |t.right.lines| == |t0.right.lines| + 4 * (t.pairs - t0.pairs) &&
    |t.single.lines| == |t0.single.lines| + 4 * (t.singles - t0.singles)
  }

  lemma RouteLines(p: Pairing, read: SeqPart)
    requires NotClosed(p.out) && FourLines(p.leftRead) && |read.lines| == 4
    ensures NotClosed(Route(p, read).out) && FourLines(Route(p, read).leftRead)
    ensures LinesTrack(p.out, Route(p, read).out)
  {
  }

  /** Over a whole dump output, with the records `SeqPart.read` builds, the line
      counts of the files agree with the pair and singleton counters. */
  lemma {:induction false} ConsumeLines(classify: string -> Result<Header>, p: Pairing, input: seq<string>)
    requires NotClosed(p.out) && FourLines(p.leftRead)
    ensures NotClosed(Consume(classify, p, input).pairing.out)
    ensures FourLines(Consume(classify, p, input).pairing.leftRead)
    ensures LinesTrack(p.out, Consume(classify, p, input).pairing.out)
    decreases |input|
  {
    if input != [] {
      var o := ReadRecord(classify, input);
      if o.result.Ok? {
        var q := Route(p, o.result.value);
        RouteLines(p, o.result.value);
        ConsumeLines(classify, q, input[4..]);
      }
    }
  }

  /** A run's left read still buffered when the dump output ends is never written:
      the files then hold four lines for every record read but that one. */
  lemma DroppedLeftRead(classify: string -> Result<Header>, t: Tallies, input: seq<string>)
    requires NotClosed(t)
    ensures var c := Consume(classify, Pairing(None, t), input).pairing;
      (|c.out.left.lines| - |t.left.lines|) + (|c.out.right.lines| - |t.right.lines|) +
      (|c.out.single.lines| - |t.single.lines|) ==
      4 * (c.out.records - t.records - (if c.leftRead.Some? then 1 else 0))
  {
    ConsumeBalanced(classify, Pairing(None, t), input);
    ConsumeLines(classify, Pairing(None, t), input);
  }

  /** The lines held in the three files. */
  function Written(t: Tallies): multiset<string>
    requires Writable(t)
  {
    multiset(t.left.lines) + multiset(t.right.lines) + multiset(t.single.lines)
  }

  /** The lines of the buffered left read, if there is one. */
  function Held(p: Pairing): multiset<string> {
    if p.leftRead.Some? then multiset(p.leftRead.value.lines) else multiset{}
  }

  /** Routing a read moves its lines, and perhaps those of the buffered read, into
      the files: nothing is written twice and nothing is lost. */
  lemma RouteConserves(p: Pairing, read: SeqPart)
    requires NotClosed(p.out)
    ensures NotClosed(Route(p, read).out)
    ensures Written(Route(p, read).out) + Held(Route(p, read)) == Written(p.out) + Held(p) + multiset(read.lines)
  {
    var t := p.out.(records := p.out.records + 1);
    assert Written(t) == Written(p.out);
    SingletonWritten(t, read);
    match read.role
    case SINGLETON =>
    case RIGHT =>
      if p.leftRead.Some? {
        var l := p.leftRead.value;
        if Matches(l, read) {
          PairWritten(t, l, read);
        } else {
          var u := WriteSingletonTo(WriteSingletonTo(t, l), read);
          SingletonWritten(t, l);
          SingletonWritten(WriteSingletonTo(t, l), read);
          assert Written(u.(errors := u.errors + 1)) == Written(u);
        }
      }
    case LEFT =>
      if p.leftRead.Some? {
        var u := WriteSingletonTo(t, p.leftRead.value);
        SingletonWritten(t, p.leftRead.value);
        assert Written(u.(errors := u.errors + 1)) == Written(u);
      }
  }

  lemma SingletonWritten(t: Tallies, read: SeqPart)
    requires NotClosed(t)
    ensures NotClosed(WriteSingletonTo(t, read))
    ensures Written(WriteSingletonTo(t, read)) == Written(t) + multiset(read.lines)
  {
    assert WriteSingletonTo(t, read).single.lines == t.single.lines + read.lines;
  }

  lemma PairWritten(t: Tallies, l: SeqPart, r: SeqPart)
    requires NotClosed(t)
    ensures NotClosed(WritePairTo(t, l, r))
    ensures Written(WritePairTo(t, l, r)) == Written(t) + multiset(l.lines) + multiset(r.lines)
  {
    assert WritePairTo(t, l, r).left.lines == t.left.lines + l.lines;
    assert WritePairTo(t, l, r).right.lines == t.right.lines + r.lines;
  }

  /** Over a dump output, the lines written plus the buffered read are the lines
      read: all of the input when it is drained, part of it when a malformed
      record ends the loop. */
  lemma {:induction false} ConsumeConserves(classify: string -> Result<Header>, p: Pairing, input: seq<string>)
    requires NotClosed(p.out)
    ensures var c := Consume(classify, p, input);
      NotClosed(c.pairing.out) &&
      Written(c.pairing.out) + Held(c.pairing) <= Written(p.out) + Held(p) + multiset(input) &&
      (c.outcome.Pass? ==> Written(c.pairing.out) + Held(c.pairing) == Written(p.out) + Held(p) + multiset(input))
    decreases |input|
  {
    if input != [] {
      var o := ReadRecord(classify, input);
      if o.result.Ok? {
        var q := Route(p, o.result.value);
        RouteConserves(p, o.result.value);
        assert input == input[..4] + input[4..];
        assert multiset(input) == multiset(o.result.value.lines) + multiset(input[4..]);
        ConsumeConserves(classify, q, input[4..]);
      }
    }
  }

  /** A record as `SeqPart.read` builds it from the classifier's verdict on its
      header line. */
  predicate Parsed(classify: string -> Result<Header>, r: SeqPart) {
    |r.lines| == 4 && classify(r.lines[0]) == Ok(Header(r.id, r.role))
  }

  /** Only a parsed LEFT read is ever buffered. */
  predicate HeldLeft(classify: string -> Result<Header>, p: Pairing) {
    p.leftRead.Some? ==> Parsed(classify, p.leftRead.value) && p.leftRead.value.role == LEFT
  }

  /** The `i`-th record written to the left file since `t0` is a LEFT read and the
      `i`-th written to the right file is the RIGHT read with the same id. */
  predicate MatesAt(classify: string -> Result<Header>, t0: Tallies, t: Tallies, i: nat)
    requires LinesTrack(t0, t) && i < t.pairs - t0.pairs
  {
    var a := classify(t.left.lines[|t0.left.lines| + 4 * i]);
    var b := classify(t.right.lines[|t0.right.lines| + 4 * i]);
    a.Ok? && b.Ok? && a.value.role == LEFT && b.value.role == RIGHT && a.value.id == b.value.id
  }

  /** The left and right files hold mates at equal positions. */
  predicate PairedSince(classify: string -> Result<Header>, t0: Tallies, t: Tallies) {
    LinesTrack(t0, t) && forall i: nat :: i < t.pairs - t0.pairs ==> MatesAt(classify, t0, t, i)
  }

  lemma RoutePaired(classify: string -> Result<Header>, t0: Tallies, p: Pairing, read: SeqPart)
    requires NotClosed(p.out) && PairedSince(classify, t0, p.out)
    requires HeldLeft(classify, p) && Parsed(classify, read)
    ensures NotClosed(Route(p, read).out) && HeldLeft(classify, Route(p, read))
    ensures PairedSince(classify, t0, Route(p, read).out)
  {
    var q := Route(p, read);
    RouteLines(p, read);
    var n := p.out.pairs - t0.pairs;
    if read.role == RIGHT && p.leftRead.Some? && Matches(p.leftRead.value, read) {
      var l := p.leftRead.value;
      assert q.out.left.lines == p.out.left.lines + l.lines;
      assert q.out.right.lines == p.out.right.lines + read.lines;
      forall i: nat | i < q.out.pairs - t0.pairs
        ensures MatesAt(classify, t0, q.out, i)
      {
        if i < n {
          assert MatesAt(classify, t0, p.out, i);
          assert q.out.left.lines[|t0.left.lines| + 4 * i] == p.out.left.lines[|t0.left.lines| + 4 * i];
          assert q.out.right.lines[|t0.right.lines| + 4 * i] == p.out.right.lines[|t0.right.lines| + 4 * i];
        } else {
          assert q.out.left.lines[|t0.left.lines| + 4 * i] == l.lines[0];
          assert q.out.right.lines[|t0.right.lines| + 4 * i] == read.lines[0];
        }
      }
    } else {
      assert q.out.left == p.out.left && q.out.right == p.out.right && q.out.pairs == p.out.pairs;
      forall i: nat | i < q.out.pairs - t0.pairs
        ensures MatesAt(classify, t0, q.out, i)
      {
        assert MatesAt(classify, t0, p.out, i);
      }
    }
  }

  /** Over a whole dump output the left and right files stay in step: every pair
      written puts a LEFT read and its RIGHT mate at the same position. */
  lemma {:induction false} ConsumePaired(classify: string -> Result<Header>, t0: Tallies, p: Pairing, input: seq<string>)
    requires NotClosed(p.out) && PairedSince(classify, t0, p.out) && HeldLeft(classify, p)
    ensures var c := Consume(classify, p, input).pairing;
      NotClosed(c.out) && HeldLeft(classify, c) && PairedSince(classify, t0, c.out)
    decreases |input|
  {
    if input != [] {
      var o := ReadRecord(classify, input);
      if o.result.Ok? {
        var r := o.result.value;
        assert r.lines[0] == input[0];
        assert Parsed(classify, r);
        RoutePaired(classify, t0, p, r);
        ConsumePaired(classify, t0, Route(p, r), input[4..]);
      }
    }
  }

  /** As written, an unmatched RIGHT writes both reads as singletons, counts one
      error and keeps the old left read buffered. */
  lemma AsWrittenUnmatchedRight(p: Pairing, read: SeqPart)
    requires Writable(p.out) && read.role == RIGHT && p.leftRead.Some? && !Matches(p.leftRead.value, read)
    ensures RouteAsWritten(p, read).leftRead == p.leftRead
    ensures RouteAsWritten(p, read).out.errors == p.out.errors + 1
    ensures RouteAsWritten(p, read).out.single == PrintAll(PrintAll(p.out.single, p.leftRead.value.lines), read.lines)
  {
  }

  /** As written, the records L(a), R(b), R(a) write the left read `a` twice: once as
      a singleton and once as half of a pair, so four records are accounted for
      after three reads. */
  lemma AsWrittenWritesTwice()
    ensures var t := Tallies(Open("d", "x", "_1", false), Open("d", "x", "_2", false), Open("d", "x", "_s", false), 0, 0, 0, 0);
      var a := SeqPart("a", LEFT, ["@a.1"]);
      var b := SeqPart("b", RIGHT, ["@b.2"]);
      var a2 := SeqPart("a", RIGHT, ["@a.2"]);
      var w := RouteAsWritten(RouteAsWritten(RouteAsWritten(Pairing(None, t), a), b), a2);
      var c := Route(Route(Route(Pairing(None, t), a), b), a2);
      w.out.left.lines == ["@a.1"] && w.out.single.lines == ["@a.1", "@b.2"] &&
      Balance(w) == 1 &&
      c.out.left.lines == [] && c.out.single.lines == ["@a.1", "@b.2", "@a.2"] &&
      Balance(c) == 0
  {
  }

  // ---------------------------------------------------------------- runs

  const SRALIB_ERROR: string := "SRALIB environment variable is missing or invalid."

  /** `formatCommand`: the FASTQ-DUMP command line for one run, or the exception
      when the SRA toolkit directory is not known. */
  function FormatCommand(cmdPath: Option<string>, run: string): (r: Result<seq<string>>)
    ensures r.Err? <==> cmdPath.None?
    ensures r.Err? ==> r.error == IOError(SRALIB_ERROR)
    ensures r.Ok? ==> |r.value| == 9 && r.value[0] == Path(cmdPath.value, "fastq-dump") && r.value[8] == run
  {
    match cmdPath
    case None => Err(IOError(SRALIB_ERROR))
    case Some(dir) =>
      Ok([Path(dir, "fastq-dump"), "--readids", "--stdout", "--split-spot",
          "--skip-technical", "--clip", "--read-filter", "pass", run])
  }

  /** Distinct runs get distinct commands, with the same flags. */
  lemma FormatCommandInjective(cmdPath: Option<string>, run1: string, run2: string)
    requires cmdPath.Some?
    ensures FormatCommand(cmdPath, run1).value[..8] == FormatCommand(cmdPath, run2).value[..8]
    ensures FormatCommand(cmdPath, run1) == FormatCommand(cmdPath, run2) <==> run1 == run2
  {
  }

  /** What the dump process yields for a command: its standard output and whether
      it ended successfully. */
  datatype DumpResult = DumpResult(lines: seq<string>, exitOk: bool)

  function FlushAll(t: Tallies): (u: Tallies)
    requires Writable(t)
    ensures Writable(u)
  {
    t.(left := Flush(t.left), right := Flush(t.right), single := Flush(t.single))
  }

  datatype Stepped = Stepped(out: Tallies, outcome: Outcome)

  /** `downloadRun`: a fresh consumer (empty buffer) drains the dump output; its own
      exception dies with its thread; a failed process is an exception; otherwise
      the three files are flushed. */
  function RunStep(classify: string -> Result<Header>, cmdPath: Option<string>,
                   dump: seq<string> -> DumpResult, t: Tallies, run: string): (s: Stepped)
    requires Writable(t)
    ensures Writable(s.out)
  {
    match FormatCommand(cmdPath, run)
    case Err(e) => Stepped(t, Fail(e))
    case Ok(command) =>
      var d := dump(command);
      var u := Consume(classify, Pairing(None, t), d.lines).pairing.out;
      if !d.exitOk then Stepped(u, Fail(ProcessFailed("FASTQ-DUMP")))
      else Stepped(FlushAll(u), Pass)
  }

  /** A run whose command could be formed: the dump output is consumed from an
      empty buffer, and the files are flushed only when the process succeeded. */
  lemma RunStepDumped(classify: string -> Result<Header>, cmdPath: Option<string>,
                      dump: seq<string> -> DumpResult, t: Tallies, run: string)
    requires Writable(t) && cmdPath.Some?
    ensures var d := dump(FormatCommand(cmdPath, run).value);
      var u := Consume(classify, Pairing(None, t), d.lines).pairing.out;
      RunStep(classify, cmdPath, dump, t, run) ==
        if d.exitOk then Stepped(FlushAll(u), Pass) else Stepped(u, Fail(ProcessFailed("FASTQ-DUMP")))
  {
  }

  datatype Executed = Executed(out: Tallies, runCount: nat, outcome: Outcome)

  /** The `execute` loop: every run in order, counting it before it is downloaded;
      the first exception ends the download. */
  function RunAll(classify: string -> Result<Header>, cmdPath: Option<string>,
                  dump: seq<string> -> DumpResult, t: Tallies, runCount: nat, runs: seq<string>): (e: Executed)
    requires Writable(t)
    ensures Writable(e.out)
    decreases |runs|
  {
    if runs == [] then Executed(t, runCount, Pass)
    else
      var s := RunStep(classify, cmdPath, dump, t, runs[0]);
      if s.outcome.Fail? then Executed(s.out, runCount + 1, s.outcome)
      else RunAll(classify, cmdPath, dump, s.out, runCount + 1, runs[1..])
  }

  /** A completed download counted every run once; a failed one stopped at the run
      that failed. */
  lemma {:induction false} RunAllCount(classify: string -> Result<Header>, cmdPath: Option<string>,
                                       dump: seq<string> -> DumpResult, t: Tallies, runCount: nat, runs: seq<string>)
    requires Writable(t)
    ensures var e := RunAll(classify, cmdPath, dump, t, runCount, runs);
      (e.outcome.Pass? ==> e.runCount == runCount + |runs|) &&
      (e.outcome.Fail? ==> runCount < e.runCount <= runCount + |runs|)
    decreases |runs|
  {
    if runs != [] {
      var s := RunStep(classify, cmdPath, dump, t, runs[0]);
      if s.outcome.Pass? {
        RunAllCount(classify, cmdPath, dump, s.out, runCount + 1, runs[1..]);
      }
    }
  }

  /** Without the SRA toolkit directory, the first run fails and nothing is read. */
  lemma NoToolkit(classify: string -> Result<Header>, dump: seq<string> -> DumpResult,
                  t: Tallies, runCount: nat, runs: seq<string>)
    requires Writable(t) && runs != []
    ensures RunAll(classify, None, dump, t, runCount, runs) == Executed(t, runCount + 1, Fail(IOError(SRALIB_ERROR)))
  {
  }

  function BalanceOf(t: Tallies): int {
    2 * t.pairs + t.singles - t.records
  }

  /** Across all runs no record is written twice, and the file sizes agree with
      the counters. */
  lemma {:induction false} RunAllAccounting(classify: string -> Result<Header>, cmdPath: Option<string>,
                                            dump: seq<string> -> DumpResult, t: Tallies, runCount: nat, runs: seq<string>)
    requires NotClosed(t)
    ensures var e := RunAll(classify, cmdPath, dump, t, runCount, runs);
      BalanceOf(e.out) <= BalanceOf(t) && NotClosed(e.out) && LinesTrack(t, e.out)
    decreases |runs|
  {
    if runs != [] {
      var s := RunStep(classify, cmdPath, dump, t, runs[0]);
      if FormatCommand(cmdPath, runs[0]).Ok? {
        var d := dump(FormatCommand(cmdPath, runs[0]).value);
        ConsumeBalanced(classify, Pairing(None, t), d.lines);
        ConsumeLines(classify, Pairing(None, t), d.lines);
        assert BalanceOf(s.out) <= BalanceOf(t) && NotClosed(s.out) && LinesTrack(t, s.out);
      }
      if s.outcome.Pass? {
        RunAllAccounting(classify, cmdPath, dump, s.out, runCount + 1, runs[1..]);
      }
    }
  }

  /** The lines the dump process yields for each run whose command could be
      formed. */
  function Dumped(cmdPath: Option<string>, dump: seq<string> -> DumpResult, runs: seq<string>): multiset<string>
    decreases |runs|
  {
    if runs == [] then multiset{}
    else DumpedRun(cmdPath, dump, runs[0]) + Dumped(cmdPath, dump, runs[1..])
  }

  lemma FlushWritten(classify: string -> Result<Header>, t0: Tallies, t: Tallies)
    requires NotClosed(t) && Writable(t0)
    ensures NotClosed(FlushAll(t)) && Written(FlushAll(t)) == Written(t)
    ensures PairedSince(classify, t0, t) ==> PairedSince(classify, t0, FlushAll(t))
  {
    var u := FlushAll(t);
    assert u.left.lines == t.left.lines && u.right.lines == t.right.lines && u.single.lines == t.single.lines;
    if PairedSince(classify, t0, t) {
      forall i: nat | i < u.pairs - t0.pairs
        ensures MatesAt(classify, t0, u, i)
      {
        assert MatesAt(classify, t0, t, i);
      }
    }
  }

  /** The lines the dump process yields for one run. */
  function DumpedRun(cmdPath: Option<string>, dump: seq<string> -> DumpResult, run: string): multiset<string> {
    match FormatCommand(cmdPath, run)
    case Err(_) => multiset{}
    case Ok(command) => multiset(dump(command).lines)
  }

  lemma StepConserves(classify: string -> Result<Header>, cmdPath: Option<string>,
                      dump: seq<string> -> DumpResult, t: Tallies, run: string)
    requires NotClosed(t)
    ensures var s := RunStep(classify, cmdPath, dump, t, run);
      NotClosed(s.out) && Written(s.out) <= Written(t) + DumpedRun(cmdPath, dump, run)
  {
    match FormatCommand(cmdPath, run)
    case Err(_) =>
    case Ok(command) =>
      var d := dump(command);
      var c := Consume(classify, Pairing(None, t), d.lines).pairing;
      ConsumeConserves(classify, Pairing(None, t), d.lines);
      assert Held(Pairing(None, t)) == multiset{};
      SubMultisetStep(Written(c.out), Written(c.out) + Held(c), Written(t) + multiset(d.lines), multiset{});
      FlushWritten(classify, t, c.out);
  }

  lemma SubMultisetStep(a: multiset<string>, b: multiset<string>, c: multiset<string>, d: multiset<string>)
    requires a <= b + d && b <= c
    ensures a <= c + d
  {
  }

  /** Across all runs no line is written more often than the dump processes
      yielded it. */
  lemma {:induction false} RunAllConserves(classify: string -> Result<Header>, cmdPath: Option<string>,
                                           dump: seq<string> -> DumpResult, t: Tallies, runCount: nat, runs: seq<string>)
    requires NotClosed(t)
    ensures var e := RunAll(classify, cmdPath, dump, t, runCount, runs);
      NotClosed(e.out) && Written(e.out) <= Written(t) + Dumped(cmdPath, dump, runs)
    decreases |runs|
  {
    if runs != [] {
      var s := RunStep(classify, cmdPath, dump, t, runs[0]);
      StepConserves(classify, cmdPath, dump, t, runs[0]);
      var first := DumpedRun(cmdPath, dump, runs[0]);
      var rest := Dumped(cmdPath, dump, runs[1..]);
      assert Dumped(cmdPath, dump, runs) == first + rest;
      if s.outcome.Pass? {
        var e := RunAll(classify, cmdPath, dump, s.out, runCount + 1, runs[1..]);
        RunAllConserves(classify, cmdPath, dump, s.out, runCount + 1, runs[1..]);
        SubMultisetStep(Written(e.out), Written(s.out), Written(t) + first, rest);
      }
    }
  }

  /** Across all runs the left and right files stay in step: position by position
      they hold a LEFT read and its RIGHT mate. */
  lemma {:induction false} RunAllPaired(classify: string -> Result<Header>, cmdPath: Option<string>,
                                        dump: seq<string> -> DumpResult, t0: Tallies, t: Tallies,
                                        runCount: nat, runs: seq<string>)
    requires NotClosed(t) && PairedSince(classify, t0, t)
    ensures var e := RunAll(classify, cmdPath, dump, t, runCount, runs);
      NotClosed(e.out) && PairedSince(classify, t0, e.out)
    decreases |runs|
  {
    if runs != [] {
      var s := RunStep(classify, cmdPath, dump, t, runs[0]);
      match FormatCommand(cmdPath, runs[0])
      case Err(_) =>
      case Ok(command) =>
        var d := dump(command);
        var c := Consume(classify, Pairing(None, t), d.lines).pairing;
        ConsumePaired(classify, t0, Pairing(None, t), d.lines);
        FlushWritten(classify, t0, c.out);
        assert NotClosed(s.out) && PairedSince(classify, t0, s.out);
        if s.outcome.Pass? {
          RunAllPaired(classify, cmdPath, dump, t0, s.out, runCount + 1, runs[1..]);
        }
    }
  }

  function InProgress(sampleId: string): string {
    "Download of sample " + sampleId + " in progress."
  }

  /** The summary `execute` formats after the last run. */
  function Summary(sampleId: string, runs: nat, pairs: nat, singles: nat, errors: nat): string {
    "Sample " + sampleId + " downloaded from " + NatToString(runs) + " runs, " + NatToString(pairs) +
    " pairs, " + NatToString(singles) + " singletons, and " + NatToString(errors) + " errors."
  }

  // ---------------------------------------------------------------- objects

  class NcbiDownloader {
    const sampleId: string
    /** The header classifier of the sample whose runs these are. */
    const classify: string -> Result<Header>
    /** The runs as the `TreeSet` orders them. */
    const runList: seq<string>
    var leftFastqStream: Stream
    var rightFastqStream: Stream
    var singleFastqStream: Stream
    var errorCount: nat
    var pairCount: nat
    var singleCount: nat
    var runCount: nat
    var readCount: nat
    var summaryString: string

    ghost predicate Valid()
      reads this
    {
      Writable(Out()) && StrictlySorted(runList)
    }

    function Out(): Tallies
      reads this
    {
      Tallies(leftFastqStream, rightFastqStream, singleFastqStream, pairCount, singleCount, errorCount, readCount)
    }

    /** The constructor: the runs deduplicated and sorted, the three files opened,
        the counters zero. */
    constructor (id: string, outDir: string, zipped: bool, runs: seq<string>, layout: ReadSample.Layout)
      ensures Valid() && sampleId == id && classify == ReadSample.HeaderProcessor(layout)
      ensures runList == InsertAll([], runs)
      ensures leftFastqStream == Open(outDir, id, "_1", zipped)
      ensures rightFastqStream == Open(outDir, id, "_2", zipped)
      ensures singleFastqStream == Open(outDir, id, "_s", zipped)
      ensures errorCount == 0 && pairCount == 0 && singleCount == 0 && runCount == 0 && readCount == 0
      ensures summaryString == "Sample " + id + " being initialized."
    {
      var list: seq<string> := [];
      var i := 0;
      while i < |runs|
        invariant 0 <= i <= |runs| && StrictlySorted(list)
        invariant forall r :: r in list <==> r in runs[..i]
      {
        list := Insert(list, runs[i]);
        assert runs[..i + 1] == runs[..i] + [runs[i]];
        i := i + 1;
      }
      assert runs[..i] == runs;
      SortedUnique(list, InsertAll([], runs));
      runList := list;
      sampleId := id;
      classify := ReadSample.HeaderProcessor(layout);
      leftFastqStream := Open(outDir, id, "_1", zipped);
      rightFastqStream := Open(outDir, id, "_2", zipped);
      singleFastqStream := Open(outDir, id, "_s", zipped);
      errorCount := 0;
      runCount := 0;
      pairCount := 0;
      singleCount := 0;
      readCount := 0;
      summaryString := "Sample " + id + " being initialized.";
    }

    method WritePair(leftRead: SeqPart, rightRead: SeqPart)
      requires Valid()
      modifies this`leftFastqStream, this`rightFastqStream, this`pairCount
      ensures Valid() && Out() == WritePairTo(old(Out()), leftRead, rightRead)
    {
      leftFastqStream := Write(leftRead, leftFastqStream);
      rightFastqStream := Write(rightRead, rightFastqStream);
      pairCount := pairCount + 1;
    }

    method WriteSingleton(read: SeqPart)
      requires Valid()
      modifies this`singleFastqStream, this`singleCount
      ensures Valid() && Out() == WriteSingletonTo(old(Out()), read)
    {
      singleFastqStream := Write(read, singleFastqStream);
      singleCount := singleCount + 1;
    }

    /** `downloadRun`, with the process's output given by `dump`. */
    method DownloadRun(cmdPath: Option<string>, dump: seq<string> -> DumpResult, run: string) returns (r: Outcome)
      requires Valid()
      modifies this`leftFastqStream, this`rightFastqStream, this`singleFastqStream, this`pairCount, this`singleCount, this`errorCount, this`readCount
      ensures Valid()
      ensures Stepped(Out(), r) == RunStep(classify, cmdPath, dump, old(Out()), run)
    {
      var command := FormatCommand(cmdPath, run);
      if command.Err? {
        return Fail(command.error);
      }
      var dlProcess := dump(command.value);
      var seqReader := new LineIterator(dlProcess.lines);
      var seqProcessor := new SeqConsumer(this);
      assert seqReader.Rest() == dlProcess.lines;
      ghost var u := Consume(classify, Pairing(None, Out()), dlProcess.lines).pairing.out;
      RunStepDumped(classify, cmdPath, dump, Out(), run);
      // The consumer thread's exception never reaches this method.
      var lost := seqProcessor.Run(seqReader);
      assert Out() == u;
      if !dlProcess.exitOk {
        return Fail(ProcessFailed("FASTQ-DUMP"));
      }
      FlushFiles();
      r := Pass;
    }

    /** The three `flush` calls that end a successful run. */
    method FlushFiles()
      requires Valid()
      modifies this`leftFastqStream, this`rightFastqStream, this`singleFastqStream
      ensures Valid() && Out() == FlushAll(old(Out()))
    {
      leftFastqStream := Flush(leftFastqStream);
      rightFastqStream := Flush(rightFastqStream);
      singleFastqStream := Flush(singleFastqStream);
    }

    /** `execute`: the runs in order, then the summary; an exception leaves the
        "in progress" summary in place. */
    method Execute(cmdPath: Option<string>, dump: seq<string> -> DumpResult) returns (r: Outcome)
      requires Valid()
      modifies this
      ensures Valid()
      ensures var e := RunAll(classify, cmdPath, dump, old(Out()), old(runCount), runList);
        Out() == e.out && runCount == e.runCount && r == e.outcome
      ensures r.Pass? ==> summaryString == Summary(sampleId, runCount, pairCount, singleCount, errorCount)
      ensures r.Fail? ==> summaryString == InProgress(sampleId)
    {
      summaryString := InProgress(sampleId);
      var i := 0;
      while i < |runList|
        invariant 0 <= i <= |runList| && Valid() && summaryString == InProgress(sampleId)
        invariant RunAll(classify, cmdPath, dump, Out(), runCount, runList[i..]) ==
          RunAll(classify, cmdPath, dump, old(Out()), old(runCount), runList)
      {
        assert runList[i..][0] == runList[i] && runList[i..][1..] == runList[i + 1..];
        runCount := runCount + 1;
        var outcome := DownloadRun(cmdPath, dump, runList[i]);
        if outcome.Fail? {
          return outcome;
        }
        i := i + 1;
      }
      summaryString := Summary(sampleId, runCount, pairCount, singleCount, errorCount);
      r := Pass;
    }

    /** `close`: all three files closed (closing a closed file changes nothing). */
    method Close()
      requires Valid()
      modifies this
      ensures Valid()
      ensures leftFastqStream == Streams.Close(old(leftFastqStream))
      ensures rightFastqStream == Streams.Close(old(rightFastqStream))
      ensures singleFastqStream == Streams.Close(old(singleFastqStream))
      ensures pairCount == old(pairCount) && singleCount == old(singleCount) && errorCount == old(errorCount)
      ensures readCount == old(readCount) && runCount == old(runCount) && summaryString == old(summaryString)
    {
      leftFastqStream := Streams.Close(leftFastqStream);
      rightFastqStream := Streams.Close(rightFastqStream);
      singleFastqStream := Streams.Close(singleFastqStream);
    }
  }

  /** The thread that drains one run's dump output. */
  class SeqConsumer {
    const owner: NcbiDownloader
    var leftRead: Option<SeqPart>

    constructor (downloader: NcbiDownloader)
      ensures owner == downloader && leftRead == None
    {
      owner := downloader;
      leftRead := None;
    }

    /** The loop body once a record is read: count it, then route it by type. */
    method Dispatch(part: SeqPart)
      requires owner.Valid()
      modifies this, owner`leftFastqStream, owner`rightFastqStream, owner`singleFastqStream, owner`pairCount, owner`singleCount, owner`errorCount, owner`readCount
      ensures owner.Valid()
      ensures Pairing(leftRead, owner.Out()) == Route(old(Pairing(leftRead, owner.Out())), part)
    {
      owner.readCount := owner.readCount + 1;
      match part.role
      case SINGLETON =>
        owner.WriteSingleton(part);
      case RIGHT =>
        if leftRead.None? {
          owner.WriteSingleton(part);
        } else if Matches(leftRead.value, part) {
          owner.WritePair(leftRead.value, part);
          leftRead := None;
        } else {
          owner.WriteSingleton(leftRead.value);
          owner.WriteSingleton(part);
          owner.errorCount := owner.errorCount + 1;
          leftRead := None;
        }
      case LEFT =>
        if leftRead.Some? {
          owner.WriteSingleton(leftRead.value);
          owner.errorCount := owner.errorCount + 1;
        }
        leftRead := Some(part);
    }

    /** `run`: reads and routes records until the lines run out or a record is
        malformed. */
    method Run(it: LineIterator) returns (r: Outcome)
      requires it.Valid() && owner.Valid()
      modifies this, it, owner`leftFastqStream, owner`rightFastqStream, owner`singleFastqStream, owner`pairCount, owner`singleCount, owner`errorCount, owner`readCount
      ensures it.Valid() && owner.Valid()
      ensures Consumed(Pairing(leftRead, owner.Out()), r) ==
        Consume(owner.classify, old(Pairing(leftRead, owner.Out())), old(it.Rest()))
    {
      while it.HasNext()
        invariant it.Valid() && owner.Valid()
        invariant Consume(owner.classify, Pairing(leftRead, owner.Out()), it.Rest()) ==
          Consume(owner.classify, old(Pairing(leftRead, owner.Out())), old(it.Rest()))
        decreases |it.lines| - it.pos
      {
        ghost var p := Pairing(leftRead, owner.Out());
        ghost var rest := it.Rest();
        var read := Read(owner.classify, it);
        if read.Err? {
          return Fail(read.error);
        }
        var part := read.value;
        assert it.Rest() == rest[4..];
        Dispatch(part);
      }
      r := Pass;
    }
  }
}
