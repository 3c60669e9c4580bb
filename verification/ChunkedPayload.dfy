/** The chunked-body reader of assign6/payload.cc, against the grammar of
    section 4.1 of RFC 7230 (without trailers). */
module ChunkedPayload {
  import opened Decimal
  import opened Text
  import opened Wrappers

  const CRLF := "\r\n"

  // ----- the input stream

  /** What is left of an `istream`; once it has met the end, it is no longer
      good and yields nothing more. */
  datatype Stream = Stream(rest: string, good: bool)

  function Break(s: string): (pos: nat)
    ensures pos <= |s| && '\n' !in s[..pos]
    ensures pos < |s| ==> s[pos] == '\n'
  {
    if s == "" || s[0] == '\n' then 0
    else
      var pos := Break(s[1..]) + 1;
      assert s[..pos] == [s[0]] + s[1..][..pos - 1];
      pos
  }

  /** `getline`: up to the line feed, which is consumed, or to the end. */
  function GetLine(s: Stream): (r: (string, Stream))
    ensures '\n' !in r.0
    ensures r.0 != "" ==> Left(r.1) < Left(s)
    ensures Left(r.1) <= Left(s)
  {
    var pos := Break(s.rest);
    if !s.good then ("", s)
    else if pos == |s.rest| then (s.rest, Stream("", false))
    else (s.rest[..pos], s.(rest := s.rest[pos + 1..]))
  }

  function Left(s: Stream): nat { |s.rest| + (if s.good then 1 else 0) }

  function Zeros(n: nat): string { seq(n, _ => '\0') }

  /** `read` into a zeroed buffer of n bytes. */
  function Read(s: Stream, n: nat): (r: (string, Stream))
    ensures |r.0| == n && Left(r.1) <= Left(s)
  {
    if !s.good then (Zeros(n), s)
    else if n <= |s.rest| then (s.rest[..n], s.(rest := s.rest[n..]))
    else (s.rest + Zeros(n - |s.rest|), Stream("", false))
  }

  // ----- the size line

  function TrimLeft(s: string): string
  {
    if s != "" && IsSpace(s[0]) then TrimLeft(s[1..]) else s
  }

  function TrimRight(s: string): string
  {
    if s != "" && IsSpace(s[|s| - 1]) then TrimRight(s[..|s| - 1]) else s
  }

  function Trim(s: string): string { TrimRight(TrimLeft(s)) }

  predicate Trimmed(s: string)
  {
    s != "" ==> !IsSpace(s[0]) && !IsSpace(s[|s| - 1])
  }

  function HexDigit(c: char): Option<nat>
  {
    if '0' <= c <= '9' then Some((c - '0') as nat)
    else if 'a' <= c <= 'f' then Some(((c - 'a') as int + 10) as nat)
    else if 'A' <= c <= 'F' then Some(((c - 'A') as int + 10) as nat)
    else None
  }

  /** The value of the leading hexadecimal digits, after those already read. */
  function HexValue(s: string, acc: nat): nat
  {
    if s != "" && HexDigit(s[0]).Some? then HexValue(s[1..], 16 * acc + HexDigit(s[0]).value) else acc
  }

  /** `int chunkSize = strtol(("0x" + line).c_str(), NULL, 16)`: saturated to a
      long, then cut to 32 bits. */
  function ChunkSize(line: string): int
  {
    var l := HexValue(line, 0);
    var long := if l > 0x7FFF_FFFF_FFFF_FFFF then 0x7FFF_FFFF_FFFF_FFFF else l;
    var low := long % 0x1_0000_0000;
    if low > INT_MAX then low - 0x1_0000_0000 else low
  }

  /** A size for which the buffer cannot be made: `chunkSize + 2` is negative or
      overflows. */
  datatype Error = BadLength

  predicate BufferFails(n: int) { n + 2 < 0 || n + 2 > INT_MAX }

  // ----- what the loop stores

  /** One turn of the loop: what it stores, what it leaves unread, and whether
      the size was 0, in which case the two bytes read are not stored. */
  datatype Turn = Turn(stored: string, left: Stream, last: bool)

  function TurnAt(s: Stream): (r: Result<Turn, Error>)
    ensures r.Ok? && !r.value.last ==> Left(r.value.left) < Left(s)
  {
    var (raw, s1) := GetLine(s);
    var line := Trim(raw);
    var n := ChunkSize(line);
    if BufferFails(n) then Err(BadLength)
    else
      var (content, s2) := Read(s1, n + 2);
      if n == 0 then Ok(Turn(line + CRLF, s2, true))
      else
        assert raw != "";
        Ok(Turn(line + CRLF + content, s2, false))
  }

  /** The payload stored from the stream, and what it leaves unread. */
  function Ingest(s: Stream): Result<(string, Stream), Error>
    decreases Left(s)
  {
    match TurnAt(s)
    case Err(e) => Err(e)
    case Ok(turn) =>
      if turn.last then Ok((turn.stored + CRLF, turn.left)) else Prepend(turn.stored, Ingest(turn.left))
  }

  function Prepend(front: string, r: Result<(string, Stream), Error>): Result<(string, Stream), Error>
  {
    match r
    case Err(e) => Err(e)
    case Ok((stored, left)) => Ok((front + stored, left))
  }

  lemma PrependTwice(a: string, b: string, r: Result<(string, Stream), Error>)
    ensures Prepend(a, Prepend(b, r)) == Prepend(a + b, r)
  {
    if r.Ok? {
      assert a + (b + r.value.0) == (a + b) + r.value.0;
    }
  }

  class IStream {
    var stream: Stream

    constructor (bytes: string)
      ensures stream == Stream(bytes, true)
    {
      stream := Stream(bytes, true);
    }

    method Getline() returns (line: string)
      modifies this
      ensures (line, stream) == GetLine(old(stream))
    {
      var r := GetLine(stream);
      line, stream := r.0, r.1;
    }

    method ReadInto(n: nat) returns (content: string)
      modifies this
      ensures (content, stream) == Read(old(stream), n)
    {
      var r := Read(stream, n);
      content, stream := r.0, r.1;
    }
  }

  class HTTPPayload {
    var payload: string

    constructor ()
      ensures payload == ""
    {
      payload := "";
    }

    method AppendData(data: string)
      modifies this
      ensures payload == old(payload) + data
    {
      payload := payload + data;
    }

    method IngestTurn(instream: IStream) returns (outcome: Result<bool, Error>)
      modifies this, instream
      ensures match TurnAt(old(instream.stream))
              case Err(e) => outcome == Err(e)
              case Ok(turn) => outcome == Ok(turn.last) && payload == old(payload) + turn.stored && instream.stream == turn.left
    {
      hide GetLine, Read, Trim, ChunkSize;
      var chunkSizeStr := instream.Getline();
      chunkSizeStr := Trim(chunkSizeStr);
      AppendData(chunkSizeStr + CRLF);
      var chunkSize := ChunkSize(chunkSizeStr);
      if BufferFails(chunkSize) {
        return Err(BadLength);
      }
      var content := instream.ReadInto(chunkSize + 2);
      if chunkSize == 0 {
        return Ok(true);
      }
      AppendData(content);
      assert payload == old(payload) + (chunkSizeStr + CRLF + content);
      return Ok(false);
    }

    /** Terminates on every stream, truncated ones included. */
    method IngestChunkedPayload(instream: IStream) returns (outcome: Result<(), Error>)
      modifies this, instream
      ensures match Ingest(old(instream.stream))
              case Ok((stored, left)) => outcome.Ok? && payload == old(payload) + stored && instream.stream == left
              case Err(e) => outcome == Err(e)
    {
      ghost var all := Prepend(payload, Ingest(instream.stream));
      while true
        invariant Prepend(payload, Ingest(instream.stream)) == all
        decreases Left(instream.stream)
      {
        ghost var before, s := payload, instream.stream;
        var turn := IngestTurn(instream);
        if turn.Err? {
          return Err(turn.error);
        }
        if turn.value {
          break;
        }
        PrependTwice(before, TurnAt(s).value.stored, Ingest(instream.stream));
      }
      AppendData(CRLF);
      return Ok(());
    }
  }

  // ----- trimming

  lemma {:induction false} TrimLeftFacts(s: string)
    ensures TrimLeft(s) != "" ==> !IsSpace(TrimLeft(s)[0])
    ensures '\n' !in s ==> '\n' !in TrimLeft(s)
  {
    if s != "" && IsSpace(s[0]) {
      TrimLeftFacts(s[1..]);
    }
  }

  lemma {:induction false} TrimRightFacts(s: string)
    ensures TrimRight(s) <= s
    ensures TrimRight(s) != "" ==> !IsSpace(TrimRight(s)[|TrimRight(s)| - 1])
  {
    if s != "" && IsSpace(s[|s| - 1]) {
      TrimRightFacts(s[..|s| - 1]);
    }
  }

  lemma TrimFacts(s: string)
    ensures Trimmed(Trim(s))
    ensures '\n' !in s ==> '\n' !in Trim(s)
  {
    TrimLeftFacts(s);
    TrimRightFacts(TrimLeft(s));
  }

  /** White space other than the line feed. */
  predicate IsBlank(c: char) { c in " \t\r" || c == 11 as char || c == 12 as char }

  predicate Blank(s: string) { forall i :: 0 <= i < |s| ==> IsBlank(s[i]) }

  /** A line that neither begins nor ends with white space. */
  predicate Bare(line: string)
  {
    '\n' !in line && (line != "" ==> !IsBlank(line[0]) && !IsBlank(line[|line| - 1]))
  }

  lemma SpacesAreBlanks(c: char)
    ensures IsSpace(c) <==> IsBlank(c) || c == '\n'
  {
  }

  lemma {:induction false} TrimLeftPadded(before: string, rest: string)
    requires Blank(before)
    ensures TrimLeft(before + rest) == TrimLeft(rest)
  {
    if before == "" {
      assert before + rest == rest;
    } else {
      SpacesAreBlanks(before[0]);
      assert (before + rest)[1..] == before[1..] + rest;
      TrimLeftPadded(before[1..], rest);
    }
  }

  lemma {:induction false} TrimRightPadded(line: string, after: string)
    requires Blank(after)
    ensures TrimRight(line + after) == TrimRight(line)
  {
    if after == "" {
      assert line + after == line;
    } else {
      var last := |after| - 1;
      SpacesAreBlanks(after[last]);
      assert (line + after)[..|line + after| - 1] == line + after[..last];
      TrimRightPadded(line, after[..last]);
    }
  }

  /** Trimming takes off exactly the white space around a bare line. */
  lemma TrimPadded(before: string, line: string, after: string)
    requires Blank(before) && Bare(line) && Blank(after)
    ensures Trim(before + line + after) == line
  {
    assert before + line + after == before + (line + after);
    TrimLeftPadded(before, line + after);
    if line == "" {
      assert line + after == after && after + "" == after;
      TrimLeftPadded(after, "");
    } else {
      SpacesAreBlanks(line[0]);
      SpacesAreBlanks(line[|line| - 1]);
      assert TrimLeft(line + after) == line + after;
      TrimRightPadded(line, after);
    }
  }

  lemma TrimCarriageReturn(line: string)
    requires Trimmed(line) && '\n' !in line
    ensures Trim(line + "\r") == line
  {
    if line != "" {
      SpacesAreBlanks(line[0]);
      SpacesAreBlanks(line[|line| - 1]);
    }
    assert "" + line + "\r" == line + "\r";
    TrimPadded("", line, "\r");
  }

  // ----- reading a turn back

  lemma {:induction false} BreakAt(a: string, b: string)
    requires '\n' !in a
    ensures Break(a + "\n" + b) == |a|
  {
    if a != "" {
      assert (a + "\n" + b)[1..] == a[1..] + "\n" + b;
      BreakAt(a[1..], b);
    }
  }

  /** The turn on a size line `raw`, a line feed, and enough bytes. */
  lemma TurnOn(raw: string, content: string, more: string)
    requires '\n' !in raw && ChunkSize(Trim(raw)) + 2 == |content| && |content| <= INT_MAX
    ensures TurnAt(Stream(raw + "\n" + content + more, true)) ==
            if ChunkSize(Trim(raw)) == 0 then Ok(Turn(Trim(raw) + CRLF, Stream(more, true), true))
            else Ok(Turn(Trim(raw) + CRLF + content, Stream(more, true), false))
  {
    hide Break, Trim, ChunkSize, Zeros;
    var bytes := raw + "\n" + content + more;
    assert bytes == raw + "\n" + (content + more);
    BreakAt(raw, content + more);
    assert bytes[..|raw|] == raw && bytes[|raw| + 1..] == content + more;
    assert (content + more)[..|content|] == content && (content + more)[|content|..] == more;
  }

  lemma TurnOnTrimmed(line: string, content: string, more: string)
    requires '\n' !in line && Trimmed(line) && ChunkSize(line) + 2 == |content| && |content| <= INT_MAX
    ensures TurnAt(Stream(line + CRLF + content + more, true)) ==
            if ChunkSize(line) == 0 then Ok(Turn(line + CRLF, Stream(more, true), true))
            else Ok(Turn(line + CRLF + content, Stream(more, true), false))
  {
    hide TurnAt, ChunkSize, Trim, Trimmed;
    TrimCarriageReturn(line);
    TurnOn(line + "\r", content, more);
    assert (line + "\r") + "\n" == line + CRLF;
  }

  /** What a turn stored, in parts; the content of a last turn would be CRLF. */
  lemma TurnParts(s: Stream) returns (line: string, content: string)
    requires TurnAt(s).Ok?
    ensures '\n' !in line && Trimmed(line) && ChunkSize(line) + 2 == |content| && |content| <= INT_MAX
    ensures TurnAt(s).value.last <==> ChunkSize(line) == 0
    ensures if ChunkSize(line) == 0 then content == CRLF && TurnAt(s).value.stored == line + CRLF
            else TurnAt(s).value.stored == line + CRLF + content
  {
    hide GetLine, Read, Trim, ChunkSize, Trimmed;
    var (raw, s1) := GetLine(s);
    line := Trim(raw);
    TrimFacts(raw);
    content := if ChunkSize(line) == 0 then CRLF else Read(s1, ChunkSize(line) + 2).0;
  }

  lemma TurnReread(s: Stream, more: string)
    requires TurnAt(s).Ok?
    ensures var turn := TurnAt(s).value;
            if turn.last then TurnAt(Stream(turn.stored + CRLF + more, true)) == Ok(Turn(turn.stored, Stream(more, true), true))
            else TurnAt(Stream(turn.stored + more, true)) == Ok(Turn(turn.stored, Stream(more, true), false))
  {
    hide TurnAt, ChunkSize, Trimmed;
    var line, content := TurnParts(s);
    TurnOnTrimmed(line, content, more);
  }

  /** Reading a stored payload again stores the same bytes and leaves what
      follows them, whatever stream it was first read from. */
  lemma {:induction false} RereadIsIdentity(s: Stream, tail: string)
    requires Ingest(s).Ok?
    ensures Ingest(Stream(Ingest(s).value.0 + tail, true)) == Ok((Ingest(s).value.0, Stream(tail, true)))
    decreases Left(s)
  {
    hide TurnAt;
    var turn := TurnAt(s).value;
    var stored := Ingest(s).value.0;
    if turn.last {
      TurnReread(s, tail);
    } else {
      var rest := Ingest(turn.left).value.0;
      TurnReread(s, rest + tail);
      assert stored + tail == turn.stored + (rest + tail);
      RereadIsIdentity(turn.left, tail);
    }
  }

  // ----- sizes as the grammar writes them

  const LOWER_DIGITS := "0123456789abcdef"
  const UPPER_DIGITS := "0123456789ABCDEF"

  predicate DigitIs(c: char, d: nat) { d < 16 && (c == LOWER_DIGITS[d] || c == UPPER_DIGITS[d]) }

  ghost function TableDigit(c: char): Option<nat>
  {
    if d: nat :| DigitIs(c, d) then Some(d) else None
  }

  lemma DigitRead(c: char, d: nat)
    ensures DigitIs(c, d) <==> HexDigit(c) == Some(d)
  {
    assert LOWER_DIGITS[0] == '0' && LOWER_DIGITS[1] == '1' && LOWER_DIGITS[2] == '2' && LOWER_DIGITS[3] == '3';
    assert LOWER_DIGITS[4] == '4' && LOWER_DIGITS[5] == '5' && LOWER_DIGITS[6] == '6' && LOWER_DIGITS[7] == '7';
    assert LOWER_DIGITS[8] == '8' && LOWER_DIGITS[9] == '9' && LOWER_DIGITS[10] == 'a' && LOWER_DIGITS[11] == 'b';
    assert LOWER_DIGITS[12] == 'c' && LOWER_DIGITS[13] == 'd' && LOWER_DIGITS[14] == 'e' && LOWER_DIGITS[15] == 'f';
    assert UPPER_DIGITS[..10] == LOWER_DIGITS[..10] && forall i :: 0 <= i < 10 ==> UPPER_DIGITS[i] == UPPER_DIGITS[..10][i];
    assert UPPER_DIGITS[10] == 'A' && UPPER_DIGITS[11] == 'B' && UPPER_DIGITS[12] == 'C';
    assert UPPER_DIGITS[13] == 'D' && UPPER_DIGITS[14] == 'E' && UPPER_DIGITS[15] == 'F';
  }

  /** The code reads the digits of the tables, in either case, and no others. */
  lemma HexDigitIsTable(c: char)
    ensures HexDigit(c) == TableDigit(c)
  {
    if HexDigit(c).Some? {
      DigitRead(c, HexDigit(c).value);
    }
    if TableDigit(c).Some? {
      DigitRead(c, TableDigit(c).value);
    }
  }

  function Number(digits: seq<nat>): nat
  {
    if digits == [] then 0 else 16 * Number(digits[..|digits| - 1]) + digits[|digits| - 1]
  }

  /** A chunk size in these digits, alone or before an extension. */
  predicate SizeLine(line: string, digits: seq<nat>)
  {
    && 0 < |digits| <= |line|
    && (forall i :: 0 <= i < |digits| ==> DigitIs(line[i], digits[i]))
    && (|line| == |digits| || line[|digits|] == ';' || IsBlank(line[|digits|]))
  }

  lemma {:induction false} HexValueSplit(s: string, t: string, acc: nat)
    requires forall i :: 0 <= i < |s| ==> HexDigit(s[i]).Some?
    ensures HexValue(s + t, acc) == HexValue(t, HexValue(s, acc))
  {
    if s == "" {
      assert s + t == t;
    } else {
      assert (s + t)[1..] == s[1..] + t;
      HexValueSplit(s[1..], t, 16 * acc + HexDigit(s[0]).value);
    }
  }

  lemma {:induction false} DigitsRead(s: string, digits: seq<nat>)
    requires |s| == |digits| && forall i :: 0 <= i < |s| ==> HexDigit(s[i]) == Some(digits[i])
    ensures HexValue(s, 0) == Number(digits)
  {
    if s != "" {
      var last := |s| - 1;
      DigitsRead(s[..last], digits[..last]);
      HexValueSplit(s[..last], [s[last]], 0);
      assert s[..last] + [s[last]] == s;
      assert HexValue([s[last]], Number(digits[..last])) == HexValue("", 16 * Number(digits[..last]) + digits[last]);
    }
  }

  /** Any spelling of a size, each digit in either case, is read as that size. */
  lemma SizeRead(line: string, digits: seq<nat>)
    requires SizeLine(line, digits)
    ensures HexValue(line, 0) == Number(digits)
  {
    var n := |digits|;
    forall i | 0 <= i < n ensures HexDigit(line[i]) == Some(digits[i]) {
      DigitRead(line[i], digits[i]);
    }
    DigitsRead(line[..n], digits);
    HexValueSplit(line[..n], line[n..], 0);
    assert line[..n] + line[n..] == line;
  }

  /** The digits of a size, the most significant first. */
  function Digits(n: nat): (digits: seq<nat>)
    ensures digits != [] && forall i :: 0 <= i < |digits| ==> digits[i] < 16
  {
    if n < 16 then [n] else Digits(n / 16) + [n % 16]
  }

  function PrintHex(n: nat): string
  {
    var digits := Digits(n);
    seq(|digits|, i requires 0 <= i < |digits| => LOWER_DIGITS[digits[i]])
  }

  lemma {:induction false} NumberOfDigits(n: nat)
    ensures Number(Digits(n)) == n
  {
    if n >= 16 {
      NumberOfDigits(n / 16);
      assert Digits(n)[..|Digits(n)| - 1] == Digits(n / 16);
    } else {
      assert Number([n]) == 16 * Number([n][..0]) + n;
    }
  }

  /** Every size can be written, and is then read as itself. */
  lemma HexRoundTrip(n: nat)
    ensures SizeLine(PrintHex(n), Digits(n)) && HexValue(PrintHex(n), 0) == n
  {
    NumberOfDigits(n);
    SizeRead(PrintHex(n), Digits(n));
  }

  lemma SmallChunkSize(line: string)
    requires HexValue(line, 0) <= INT_MAX
    ensures ChunkSize(line) == HexValue(line, 0)
  {
  }

  /** A size too large for an int wraps as on a 64-bit machine, and one too large
      for a long is read as -1. */
  lemma LargeChunkSize(line: string)
    requires HexValue(line, 0) > INT_MAX
    ensures HexValue(line, 0) < 0x1_0000_0000 ==> ChunkSize(line) == HexValue(line, 0) - 0x1_0000_0000
    ensures HexValue(line, 0) >= 0x7FFF_FFFF_FFFF_FFFF ==> ChunkSize(line) == -1
  {
  }

  // ----- well-formed bodies

  /** A chunk as sent: its size line, with white space around it, and the data. */
  datatype Chunk = Chunk(before: string, line: string, after: string, digits: seq<nat>, data: string)

  function Raw(c: Chunk): string { c.before + c.line + c.after }

  predicate WellFormedChunk(c: Chunk)
  {
    && Blank(c.before) && Blank(c.after) && Bare(c.line) && SizeLine(c.line, c.digits)
    && |c.data| <= INT_MAX - 2 && Number(c.digits) == |c.data|
  }

  /** The bytes sent; size lines may be padded and may lack the carriage return. */
  function Sent(chunks: seq<Chunk>, last: Chunk): string
  {
    if chunks == [] then Raw(last) + "\n" + CRLF
    else Raw(chunks[0]) + "\n" + (chunks[0].data + CRLF) + Sent(chunks[1..], last)
  }

  /** The same body with its size lines bare and ended by CRLF, as the grammar has
      them. */
  function Normal(chunks: seq<Chunk>, last: Chunk): string
  {
    if chunks == [] then last.line + CRLF + CRLF
    else chunks[0].line + CRLF + (chunks[0].data + CRLF) + Normal(chunks[1..], last)
  }

  function Data(chunks: seq<Chunk>): string
  {
    if chunks == [] then "" else chunks[0].data + Data(chunks[1..])
  }

  predicate WellFormedBody(chunks: seq<Chunk>, last: Chunk)
  {
    && WellFormedChunk(last) && last.data == ""
    && forall i :: 0 <= i < |chunks| ==> WellFormedChunk(chunks[i]) && chunks[i].data != ""
  }

  /** The size line of a chunk is read as its size. */
  lemma ChunkRead(c: Chunk)
    requires WellFormedChunk(c)
    ensures '\n' !in Raw(c) && Trim(Raw(c)) == c.line && ChunkSize(c.line) == |c.data|
  {
    TrimPadded(c.before, c.line, c.after);
    SizeRead(c.line, c.digits);
    SmallChunkSize(c.line);
    hide Trim, ChunkSize, Number, SizeLine;
    assert forall i :: 0 <= i < |Raw(c)| ==> Raw(c)[i] in c.before || Raw(c)[i] in c.line || Raw(c)[i] in c.after;
  }

  /** A well-formed body, padded or not, is stored in its normal form, and
      nothing beyond it is consumed. */
  lemma {:induction false} IngestBody(chunks: seq<Chunk>, last: Chunk, tail: string)
    requires WellFormedBody(chunks, last)
    ensures Ingest(Stream(Sent(chunks, last) + tail, true)) == Ok((Normal(chunks, last), Stream(tail, true)))
  {
    hide TurnAt, ChunkSize, Trim, Raw;
    if chunks == [] {
      ChunkRead(last);
      TurnOn(Raw(last), CRLF, tail);
    } else {
      var c, more := chunks[0], Sent(chunks[1..], last) + tail;
      ChunkRead(c);
      TurnOn(Raw(c), c.data + CRLF, more);
      assert Sent(chunks, last) + tail == Raw(c) + "\n" + (c.data + CRLF) + more;
      IngestBody(chunks[1..], last, tail);
    }
  }

  /** Every size line is exactly as the grammar has it. */
  predicate Strict(chunks: seq<Chunk>, last: Chunk)
  {
    && last.before == "" && last.after == "\r"
    && forall i :: 0 <= i < |chunks| ==> chunks[i].before == "" && chunks[i].after == "\r"
  }

  lemma {:induction false} StrictIsNormal(chunks: seq<Chunk>, last: Chunk)
    requires Strict(chunks, last)
    ensures Sent(chunks, last) == Normal(chunks, last)
  {
    if chunks != [] {
      StrictIsNormal(chunks[1..], last);
      assert Raw(chunks[0]) + "\n" == chunks[0].line + CRLF;
    } else {
      assert Raw(last) + "\n" == last.line + CRLF;
    }
  }

  /** For a body in the grammar's form, the stored payload is the bytes consumed. */
  lemma StrictBodyStoredVerbatim(chunks: seq<Chunk>, last: Chunk, tail: string)
    requires WellFormedBody(chunks, last) && Strict(chunks, last)
    ensures Ingest(Stream(Sent(chunks, last) + tail, true)) == Ok((Sent(chunks, last), Stream(tail, true)))
  {
    hide Ingest, Sent, Normal, WellFormedChunk;
    IngestBody(chunks, last, tail);
    StrictIsNormal(chunks, last);
  }

  /** A body cut off within a chunk is stored as far as it goes, filled up with null
      bytes, and ended as if an empty size line had followed. */
  lemma TruncatedBodyStored(c: Chunk, part: string)
    requires WellFormedChunk(c) && c.data != "" && |part| < |c.data| + 2
    ensures Ingest(Stream(Raw(c) + "\n" + part, true)) ==
            Ok((c.line + CRLF + (part + seq(|c.data| + 2 - |part|, _ => '\0')) + (CRLF + CRLF), Stream("", false)))
  {
    ChunkRead(c);
    hide Trim, ChunkSize, Raw, WellFormedChunk;
    CutTurn(Raw(c), part);
    EmptyTurn();
    hide TurnAt;
    var stored := c.line + CRLF + (part + seq(|c.data| + 2 - |part|, _ => '\0'));
    assert Ingest(Stream("", false)) == Ok((CRLF + CRLF, Stream("", false)));
    assert Ingest(Stream(Raw(c) + "\n" + part, true)) == Prepend(stored, Ingest(Stream("", false)));
  }

  lemma CutTurn(raw: string, part: string)
    requires '\n' !in raw && 0 < ChunkSize(Trim(raw)) <= INT_MAX - 2 && |part| < ChunkSize(Trim(raw)) + 2
    ensures TurnAt(Stream(raw + "\n" + part, true)) ==
            Ok(Turn(Trim(raw) + CRLF + (part + Zeros(ChunkSize(Trim(raw)) + 2 - |part|)), Stream("", false), false))
  {
    hide Break, Trim, ChunkSize, Zeros;
    var bytes := raw + "\n" + part;
    BreakAt(raw, part);
    assert bytes[..|raw|] == raw && bytes[|raw| + 1..] == part;
  }

  /** A stream at its end gives an empty size line, which ends the body. */
  lemma EmptyTurn()
    ensures TurnAt(Stream("", false)) == Ok(Turn(CRLF, Stream("", false), true))
  {
    assert Trim("") == "" && HexValue("", 0) == 0;
    assert "" + CRLF == CRLF;
  }

  // ----- an independent decoder

  function AddData(front: string, r: Option<(string, string)>): Option<(string, string)>
  {
    if r.None? then None else Some((front + r.value.0, r.value.1))
  }

  /** The line up to the first line feed, if CRLF ends it, and what follows. */
  function FirstLine(bytes: string): (r: Option<(string, string)>)
    ensures r.Some? ==> |r.value.1| < |bytes|
  {
    var pos := Break(bytes);
    if pos == |bytes| || pos == 0 || bytes[pos - 1] != '\r' then None
    else Some((bytes[..pos - 1], bytes[pos + 1..]))
  }

  /** The number that the leading digits of the tables spell. */
  ghost function SizeOf(line: string, acc: nat): nat
  {
    if line != "" && TableDigit(line[0]).Some? then SizeOf(line[1..], 16 * acc + TableDigit(line[0]).value) else acc
  }

  /** Decodes a body by the grammar: the data, and what follows the body. */
  ghost function Decode(bytes: string): Option<(string, string)>
    decreases |bytes|
  {
    if FirstLine(bytes).None? then None
    else
      var line, rest := FirstLine(bytes).value.0, FirstLine(bytes).value.1;
      var n := SizeOf(line, 0);
      if line == "" || TableDigit(line[0]).None? || n + 2 > |rest| || rest[n..n + 2] != CRLF then None
      else if n == 0 then Some(("", rest[2..]))
      else AddData(rest[..n], Decode(rest[n + 2..]))
  }

  lemma {:induction false} SizeOfIsHexValue(line: string, acc: nat)
    ensures SizeOf(line, acc) == HexValue(line, acc)
    decreases |line|
  {
    hide TableDigit, HexDigit;
    if line != "" {
      HexDigitIsTable(line[0]);
      if HexDigit(line[0]).Some? {
        SizeOfIsHexValue(line[1..], 16 * acc + HexDigit(line[0]).value);
      }
    }
  }

  lemma SizeDecoded(line: string, digits: seq<nat>)
    requires SizeLine(line, digits)
    ensures line != "" && TableDigit(line[0]).Some? && SizeOf(line, 0) == Number(digits)
  {
    SizeRead(line, digits);
    SizeOfIsHexValue(line, 0);
    assert DigitIs(line[0], digits[0]);
  }

  lemma FirstLineAt(line: string, rest: string)
    requires '\n' !in line
    ensures FirstLine((line + "\r") + "\n" + rest) == Some((line, rest))
  {
    hide Break;
    var bytes := (line + "\r") + "\n" + rest;
    BreakAt(line + "\r", rest);
    assert bytes[|line| + 1] == '\n' && bytes[|line|] == '\r';
    assert bytes[..|line|] == line && bytes[|line| + 2..] == rest;
  }

  lemma DecodeTurn(line: string, digits: seq<nat>, data: string, more: string)
    requires '\n' !in line && SizeLine(line, digits) && Number(digits) == |data|
    ensures Decode(line + CRLF + (data + CRLF) + more) ==
            if data == "" then Some(("", more)) else AddData(data, Decode(more))
  {
    hide FirstLine, SizeOf, TableDigit, SizeLine, Number, AddData;
    var rest := data + CRLF + more;
    assert line + CRLF + (data + CRLF) + more == (line + "\r") + "\n" + rest;
    assert rest[|data|..|data| + 2] == CRLF && rest[|data| + 2..] == more && rest[..|data|] == data;
    SizeDecoded(line, digits);
    FirstLineAt(line, rest);
  }

  lemma {:induction false} DecodeNormal(chunks: seq<Chunk>, last: Chunk, tail: string)
    requires WellFormedBody(chunks, last)
    ensures Decode(Normal(chunks, last) + tail) == Some((Data(chunks), tail))
  {
    hide Decode, SizeLine, Number;
    if chunks == [] {
      assert Normal(chunks, last) + tail == last.line + CRLF + ("" + CRLF) + tail;
      DecodeTurn(last.line, last.digits, "", tail);
    } else {
      var c, more := chunks[0], Normal(chunks[1..], last) + tail;
      assert Normal(chunks, last) + tail == c.line + CRLF + (c.data + CRLF) + more;
      DecodeTurn(c.line, c.digits, c.data, more);
      DecodeNormal(chunks[1..], last, tail);
    }
  }

  /** What is stored decodes to the data that was sent, also when the size lines
      were padded or ended by a bare line feed. */
  lemma StoredDecodesToData(chunks: seq<Chunk>, last: Chunk, tail: string)
    requires WellFormedBody(chunks, last)
    ensures var r := Ingest(Stream(Sent(chunks, last) + tail, true));
            r.Ok? && r.value.1 == Stream(tail, true) && Decode(r.value.0) == Some((Data(chunks), ""))
  {
    hide Ingest, Sent, Normal, WellFormedChunk, Decode, Data;
    IngestBody(chunks, last, tail);
    DecodeNormal(chunks, last, "");
    assert Normal(chunks, last) + "" == Normal(chunks, last);
  }
}
