/** Output files as the core sees them through `PrintWriter`: a stream that is not
    yet opened (a null field), or an open file holding the lines printed so far,
    how many of them were flushed to disk, and whether it was closed. Printing to a
    closed `PrintWriter` is silently ignored; printing to a null one cannot happen
    in a well-formed caller and is excluded by the preconditions. */
module Streams {

  datatype Stream = Unopened | Opened(path: string, lines: seq<string>, flushed: nat, closed: bool)

  /** `ReadSample.openStream` file naming: the sample id, the suffix, ".fastq",
      and ".gz" when the output is zipped. */
  function FileName(id: string, suffix: string, zipped: bool): (r: string)
    ensures r == id + suffix + (if zipped then ".fastq.gz" else ".fastq")
  {
    var ext := if zipped then ".fastq" + ".gz" else ".fastq";
    id + suffix + ext
  }

  /** `new File(dir, name)`. */
  function Path(dir: string, name: string): string {
    dir + "/" + name
  }

  /** A fresh, empty, open file at the path `new File(dir, FileName(...))` names. */
  function Open(dir: string, id: string, suffix: string, zipped: bool): (s: Stream)
    ensures s.Opened? && s.lines == [] && !s.closed
    ensures s.path == Path(dir, FileName(id, suffix, zipped))
  {
    Opened(Path(dir, FileName(id, suffix, zipped)), [], 0, false)
  }

  /** `println`: appends the line to an open file; a closed file ignores it. */
  function Println(s: Stream, line: string): (t: Stream)
    requires s.Opened?
    ensures t.Opened? && t.path == s.path && t.closed == s.closed && t.flushed == s.flushed
    ensures t.lines == if s.closed then s.lines else s.lines + [line]
  {
    if s.closed then s else s.(lines := s.lines + [line])
  }

  /** Printing several lines in order. */
  function PrintAll(s: Stream, ls: seq<string>): (t: Stream)
    requires s.Opened?
    ensures t.Opened? && t.path == s.path && t.closed == s.closed && t.flushed == s.flushed
    ensures t.lines == if s.closed then s.lines else s.lines + ls
    decreases |ls|
  {
    if ls == [] then s
    else
      var t := PrintAll(Println(s, ls[0]), ls[1..]);
      assert ls == [ls[0]] + ls[1..];
      t
  }

  /** `flush`: everything printed so far reaches the file. */
  function Flush(s: Stream): (t: Stream)
    requires s.Opened?
    ensures t.Opened? && t.lines == s.lines && t.path == s.path && t.closed == s.closed
    ensures t.flushed == if s.closed then s.flushed else |s.lines|
  {
    if s.closed then s else s.(flushed := |s.lines|)
  }

  /** `close`: flushes and closes; closing twice changes nothing. */
  function Close(s: Stream): (t: Stream)
    requires s.Opened?
    ensures t.Opened? && t.closed && t.lines == s.lines && t.path == s.path
    ensures !s.closed ==> t.flushed == |s.lines|
    ensures s.closed ==> t == s
  {
    if s.closed then s else s.(flushed := |s.lines|, closed := true)
  }

  /** The three per-read-type files of one sample never collide, and neither does
      the single-stream file of a sample. */
  lemma FileNamesDistinct(id: string, zipped: bool)
    ensures FileName(id, "_1", zipped) != FileName(id, "_2", zipped)
    ensures FileName(id, "_1", zipped) != FileName(id, "_s", zipped)
    ensures FileName(id, "_2", zipped) != FileName(id, "_s", zipped)
    ensures FileName(id, "", zipped) != FileName(id, "_1", zipped)
  {
    var n := |id|;
    assert FileName(id, "_1", zipped)[n + 1] == '1';
    assert FileName(id, "_2", zipped)[n + 1] == '2';
    assert FileName(id, "_s", zipped)[n + 1] == 's';
    assert FileName(id, "", zipped)[n] == '.';
    assert FileName(id, "_1", zipped)[n] == '_';
  }
}
