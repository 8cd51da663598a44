/** A partial sequence read: one four-line FASTQ record (header, sequence, quality
    header, quality) with the read id and read type that the sample's header
    classifier derived from its header line. */
module SeqPart {
  import opened Util
  import opened Streams

  datatype Role = LEFT | RIGHT | SINGLETON

  /** `Type.toString()`. */
  function RoleName(r: Role): string {
    match r
    case LEFT => "LEFT"
    case RIGHT => "RIGHT"
    case SINGLETON => "SINGLETON"
  }

  /** What a header classifier (`processHeader`) yields: the id and the type. */
  datatype Header = Header(id: string, role: Role)

  datatype SeqPart = SeqPart(id: string, role: Role, lines: seq<string>)

  /** `matches`: the two parts carry the same read id. */
  predicate Matches(a: SeqPart, b: SeqPart) {
    a.id == b.id
  }

  lemma MatchesIsEquivalence(a: SeqPart, b: SeqPart, c: SeqPart)
    ensures Matches(a, a)
    ensures Matches(a, b) ==> Matches(b, a)
    ensures Matches(a, b) && Matches(b, c) ==> Matches(a, c)
  {
  }

  const EOF_MESSAGE: string := "End-of-file before full FASTQ record completed."

  function QualityHeaderMessage(h: Header): string {
    RoleName(h.role) + " FASTQ record for " + h.id + " has invalid quality header."
  }

  /** The outcome of reading one record: the record or the exception, and how many
      lines were taken from the iterator. */
  datatype ReadOutcome = ReadOutcome(result: Result<SeqPart>, consumed: nat)

  /** `SeqPart.read(sample, iter)` on the lines `input` the iterator has left, with
      `classify` the sample's header classifier. The header is taken first; the
      sequence and quality header follow; an empty quality header fails on
      `charAt(0)`; the quality line comes last. */
  function ReadRecord(classify: string -> Result<Header>, input: seq<string>): (o: ReadOutcome)
    ensures o.consumed <= |input| && o.consumed <= 4
    ensures o.result.Ok? <==>
      |input| >= 4 && classify(input[0]).Ok? && input[2] != [] && input[2][0] == '+'
    ensures o.result.Ok? ==>
      o.consumed == 4 &&
      o.result.value == SeqPart(classify(input[0]).value.id, classify(input[0]).value.role, input[..4])
    ensures input == [] ==> o == ReadOutcome(Err(NoSuchElement), 0)
    ensures input != [] && classify(input[0]).Err? ==> o == ReadOutcome(Err(classify(input[0]).error), 1)
    ensures input != [] && classify(input[0]).Ok? && |input| >= 3 && input[2] == [] ==>
      o == ReadOutcome(Err(IndexOutOfBounds), 3)
    ensures input != [] && classify(input[0]).Ok? && |input| >= 3 && input[2] != [] && input[2][0] != '+' ==>
      o == ReadOutcome(Err(IOError(QualityHeaderMessage(classify(input[0]).value))), 3)
    ensures input != [] && classify(input[0]).Ok? && (|input| < 3 || (input[2] != [] && input[2][0] == '+')) && |input| < 4 ==>
      o == ReadOutcome(Err(IOError(EOF_MESSAGE)), |input|)
  {
    if input == [] then ReadOutcome(Err(NoSuchElement), 0)
    else match classify(input[0])
      case Err(e) => ReadOutcome(Err(e), 1)
      case Ok(h) =>
        if |input| < 3 then ReadOutcome(Err(IOError(EOF_MESSAGE)), |input|)
        else if input[2] == [] then ReadOutcome(Err(IndexOutOfBounds), 3)
        else if input[2][0] != '+' then ReadOutcome(Err(IOError(QualityHeaderMessage(h))), 3)
        else if |input| < 4 then ReadOutcome(Err(IOError(EOF_MESSAGE)), 3)
        else ReadOutcome(Ok(SeqPart(h.id, h.role, input[..4])), 4)
  }

  /** The iterator over the dump tool's output lines. */
  class LineIterator {
    const lines: seq<string>
    var pos: nat

    ghost predicate Valid()
      reads this
    {
      pos <= |lines|
    }

    constructor (ls: seq<string>)
      ensures Valid() && lines == ls && pos == 0
    {
      lines := ls;
      pos := 0;
    }

    /** The lines not yet taken. */
    function Rest(): seq<string>
      reads this
      requires Valid()
    {
      lines[pos..]
    }

    predicate HasNext()
      reads this
    {
      pos < |lines|
    }

    /** `next()`: the following line, or `NoSuchElementException` at the end. */
    method Next() returns (r: Result<string>)
      requires Valid()
      modifies this
      ensures Valid()
      ensures old(pos) < |lines| ==> r == Ok(lines[old(pos)]) && pos == old(pos) + 1
      ensures old(pos) >= |lines| ==> r == Err(NoSuchElement) && pos == old(pos)
    {
      if pos < |lines| {
        r := Ok(lines[pos]);
        pos := pos + 1;
      } else {
        r := Err(NoSuchElement);
      }
    }
  }

  /** `SeqPart.read`: takes the lines one at a time from the iterator, as the
      source does, and ends in the state `ReadRecord` describes. */
  method Read(classify: string -> Result<Header>, it: LineIterator) returns (r: Result<SeqPart>)
    requires it.Valid()
    modifies it
    ensures it.Valid()
    ensures var o := ReadRecord(classify, old(it.Rest()));
      r == o.result && it.pos == old(it.pos) + o.consumed
  {
    ghost var input := it.Rest();
    var header := it.Next();
    if header.Err? {
      return Err(header.error);
    }
    var h := classify(header.value);
    if h.Err? {
      return Err(h.error);
    }
    var lines := [header.value];
    var sequence := it.Next();
    if sequence.Err? {
      return Err(IOError(EOF_MESSAGE));
    }
    lines := lines + [sequence.value];
    var qualHeader := it.Next();
    if qualHeader.Err? {
      return Err(IOError(EOF_MESSAGE));
    }
    if qualHeader.value == [] {
      return Err(IndexOutOfBounds);
    }
    if qualHeader.value[0] != '+' {
      return Err(IOError(QualityHeaderMessage(h.value)));
    }
    lines := lines + [qualHeader.value];
    var quality := it.Next();
    if quality.Err? {
      return Err(IOError(EOF_MESSAGE));
    }
    lines := lines + [quality.value];
    assert lines == input[..4];
    r := Ok(SeqPart(h.value.id, h.value.role, lines));
  }

  /** `write`: prints the stored lines to the stream, in order. */
  method Write(part: SeqPart, s: Stream) returns (t: Stream)
    requires s.Opened?
    ensures t == PrintAll(s, part.lines)
  {
    t := s;
    var i := 0;
    while i < |part.lines|
      invariant 0 <= i <= |part.lines|
      invariant t == PrintAll(s, part.lines[..i])
    {
      t := Println(t, part.lines[i]);
      assert part.lines[..i + 1] == part.lines[..i] + [part.lines[i]];
      i := i + 1;
    }
    assert part.lines[..i] == part.lines;
  }
}
