/** Lines and length-prefixed blocks of the wire format of internal/protocol/protocol.go. */
module Wire {
  import opened Decimals
  import opened Text

  type Bytes = string

  datatype Error =
    | UnexpectedEnd
    | MissingCommand | EmptyCommand | MissingKey | EmptyKey | MissingValue | BadLength | BadTtl | MissingEnd
    | UnknownCommand | UnknownKind | NoValue | BadNodeLine | BadCount | BadMember | UnknownLine

  /** What was read and what is left to read. */
  datatype Parsed<+T> = Ok(value: T, rest: Bytes) | Err(error: Error) {
    predicate IsFailure() { Err? }

    function PropagateFailure<U>(): Parsed<U>
      requires Err?
    {
      Err(error)
    }

    function Extract(): (T, Bytes)
      requires Ok?
    {
      (value, rest)
    }
  }

  function Line(s: string): Bytes { s + "\n" }

  function ReadLine(s: Bytes): Parsed<string> {
    var i := Find(s, '\n');
    if i == |s| then Err(UnexpectedEnd) else Ok(Chomp(s[..i]), s[i + 1..])
  }

  lemma ReadLineOf(x: string, tail: Bytes)
    requires '\n' !in x
    ensures ReadLine(Line(x) + tail) == Ok(Chomp(x), tail)
  {
    FindAt(x, '\n', tail);
    var s := Line(x) + tail;
    assert s == x + ['\n'] + tail;
    assert s[..|x|] == x && s[|x| + 1..] == tail;
  }

  lemma LineSplits(x: string, i: nat, tail: Bytes)
    requires i < |x| && x[i] == '\n'
    ensures Line(x) + tail == Line(x[..i]) + (Line(x[i + 1..]) + tail)
  {
    assert x == x[..i] + "\n" + x[i + 1..];
  }

  lemma LineBreaks(prefix: string, x: string, i: nat, tail: Bytes)
    requires i < |x| && x[i] == '\n'
    ensures Line(prefix + x) + tail == Line(prefix + x[..i]) + (Line(x[i + 1..]) + tail)
  {
    var k := |prefix| + i;
    assert (prefix + x)[..k] == prefix + x[..i] && (prefix + x)[k + 1..] == x[i + 1..];
    hide Line;
    LineSplits(prefix + x, k, tail);
  }

  /** A newline within what is to be one line ends it early. */
  lemma ReadBrokenLine(x: string, tail: Bytes)
    requires '\n' in x
    ensures var i := Find(x, '\n');
      i < |x| && '\n' !in x[..i] && ReadLine(Line(x) + tail) == Ok(Chomp(x[..i]), Line(x[i + 1..]) + tail)
  {
    hide ReadLine, Line, Chomp, Find;
    FindFirst(x, '\n');
    var i := Find(x, '\n');
    ReadLineOf(x[..i], Line(x[i + 1..]) + tail);
    LineSplits(x, i, tail);
  }

  /** A line keeps a prefix that does not end in a carriage return, wherever it breaks after that. */
  lemma ReadPrefix(prefix: string, x: string, tail: Bytes)
    requires prefix != "" && prefix[|prefix| - 1] != '\r' && '\n' !in prefix
    ensures var got := ReadLine(Line(prefix + x) + tail); got.Ok? && prefix <= got.value
  {
    hide ReadLine, Line, Find, Trim;
    if '\n' in x {
      FindFirst(x, '\n');
      var i := Find(x, '\n');
      LineBreaks(prefix, x, i, tail);
      ReadLineOf(prefix + x[..i], Line(x[i + 1..]) + tail);
      TrimAfter(prefix, x[..i]);
    } else {
      ReadLineOf(prefix + x, tail);
      TrimAfter(prefix, x);
    }
  }

  lemma LinesAreSingle(s: Bytes)
    ensures ReadLine(s).Ok? ==> '\n' !in ReadLine(s).value
  {
    FindFirst(s, '\n');
  }

  /** White space up to the end of a line is read as a line of white space. */
  lemma ReadBlankLine(x: string, tail: Bytes)
    requires AllSpace(x)
    ensures ReadLine(Line(x) + tail).Ok? && AllSpace(ReadLine(Line(x) + tail).value)
  {
    if '\n' in x { ReadBrokenLine(x, tail); } else { ReadLineOf(x, tail); }
  }

  lemma BlankIsNoEnd(x: string, tail: Bytes)
    requires AllSpace(x)
    ensures ReadEnd(Line(x) + tail).Err?
  {
    ReadBlankLine(x, tail);
    assert 'E' in "END" && !Space('E');
  }

  /** A line that must be exactly `END`. */
  function ReadEnd(s: Bytes): Parsed<()> {
    var line :- ReadLine(s);
    if line.0 != "END" then Err(MissingEnd) else Ok((), line.1)
  }

  lemma ReadEndOf(tail: Bytes)
    ensures ReadEnd(Line("END") + tail) == Ok((), tail)
  {
    ReadLineOf("END", tail);
  }

  /** The trimmed rest of a line that starts with `prefix`. */
  function ReadAfter(s: Bytes, prefix: string, missing: Error): Parsed<string> {
    var line :- ReadLine(s);
    if prefix <= line.0 then Ok(Trim(line.0[|prefix|..]), line.1) else Err(missing)
  }

  lemma ReadAfterOf(prefix: string, x: string, tail: Bytes, missing: Error)
    requires prefix != "" && prefix[|prefix| - 1] != '\r' && '\n' !in prefix && '\n' !in x
    ensures ReadAfter(Line(prefix + x) + tail, prefix, missing) == Ok(Trim(x), tail)
  {
    ReadLineOf(prefix + x, tail);
    TrimAfter(prefix, x);
  }

  lemma ReadAfterBroken(prefix: string, x: string, tail: Bytes, missing: Error)
    requires prefix != "" && prefix[|prefix| - 1] != '\r' && '\n' !in prefix && '\n' in x
    ensures var i := Find(x, '\n');
      i < |x| && ReadAfter(Line(prefix + x) + tail, prefix, missing) == Ok(Trim(x[..i]), Line(x[i + 1..]) + tail)
  {
    hide ReadAfter, Line, Trim;
    FindFirst(x, '\n');
    var i := Find(x, '\n');
    ReadAfterOf(prefix, x[..i], Line(x[i + 1..]) + tail, missing);
    LineBreaks(prefix, x, i, tail);
  }

  lemma BlankIsNoPrefix(prefix: string, x: string, tail: Bytes, missing: Error)
    requires AllSpace(x) && prefix != "" && !Space(prefix[0])
    ensures ReadAfter(Line(x) + tail, prefix, missing).Err?
  {
    ReadBlankLine(x, tail);
  }

  /** A number of bytes that the text before it announced, and the rest of the line after them. */
  function ReadBlock(length: string, s: Bytes): Parsed<Bytes> {
    match ParseInt(length)
    case None => Err(BadLength)
    case Some(n) =>
      if n < 0 then Err(BadLength)
      else if |s| < n then Err(UnexpectedEnd)
      else
        var line :- ReadLine(s[n..]);
        Ok(s[..n], line.1)
  }

  function Block(value: Bytes): Bytes { value + "\n" }

  lemma BlockParts(value: Bytes, tail: Bytes)
    ensures var s := Block(value) + tail; s[..|value|] == value && s[|value|..] == Line("") + tail
  {
  }

  lemma ReadBlockOf(value: Bytes, tail: Bytes)
    requires |value| <= MAX_INT
    ensures ReadBlock(Decimal(|value|), Block(value) + tail) == Ok(value, tail)
  {
    ParseDecimal(|value|);
    ReadLineOf("", tail);
    hide ParseInt, Decimal, ReadLine, Line, Block;
    BlockParts(value, tail);
  }

  lemma DecimalTidy(n: nat)
    ensures Tidy(Decimal(n)) && NoSpace(Decimal(n))
  {
    var s := Decimal(n);
    forall c | c in s ensures !Space(c) { assert IsDigit(c); }
    assert s[0] in s && s[|s| - 1] in s;
  }

  // Streams of frames

  function Concat(frames: seq<Bytes>): Bytes {
    if frames == [] then "" else frames[0] + Concat(frames[1..])
  }

  /** The next `n` frames of a connection. */
  function DecodeMany<T>(decode: Bytes -> Parsed<T>, s: Bytes, n: nat): Parsed<seq<T>>
    decreases n
  {
    if n == 0 then Ok([], s)
    else
      var first :- decode(s);
      var others :- DecodeMany(decode, first.1, n - 1);
      Ok([first.0] + others.0, others.1)
  }

  /** Decoding reads the value off the frame and leaves what follows it. */
  ghost predicate Reads<T(!new)>(decode: Bytes -> Parsed<T>, frame: Bytes, value: T) {
    forall tail :: decode(frame + tail) == Ok(value, tail)
  }

  /** Whatever follows the frame, decoding does not give the value. */
  ghost predicate Misreads<T(!new)>(decode: Bytes -> Parsed<T>, frame: Bytes, value: T) {
    forall tail :: decode(frame + tail).Err? || decode(frame + tail).value != value
  }

  /** A decoder reads a concatenation of frames, and consumes every byte, exactly when it reads every
      frame alone. */
  lemma {:induction false} StreamRoundTrip<T(!new)>(decode: Bytes -> Parsed<T>, frames: seq<Bytes>, values: seq<T>,
        tail: Bytes)
    requires |frames| == |values|
    requires forall i | 0 <= i < |frames| ::
      Reads(decode, frames[i], values[i]) || Misreads(decode, frames[i], values[i])
    ensures DecodeMany(decode, Concat(frames) + tail, |frames|) == Ok(values, tail)
       <==> forall i | 0 <= i < |frames| :: Reads(decode, frames[i], values[i])
  {
    if frames == [] {
      assert Concat(frames) + tail == tail;
    } else {
      var rest, others := Concat(frames[1..]) + tail, values[1..];
      assert Concat(frames) + tail == frames[0] + rest;
      var first := decode(frames[0] + rest);
      assert values == [values[0]] + others;
      if Reads(decode, frames[0], values[0]) {
        StreamRoundTrip(decode, frames[1..], others, tail);
        assert first == Ok(values[0], rest);
        FirstRead(decode, frames[0] + rest, |frames|, values[0], rest, others, tail);
        TailReads(decode, frames, values);
      } else {
        assert Misreads(decode, frames[0], values[0]);
        assert first.Err? || first.value != values[0];
      }
    }
  }

  lemma FirstRead<T(!new)>(decode: Bytes -> Parsed<T>, s: Bytes, n: nat, value: T, rest: Bytes, others: seq<T>,
        tail: Bytes)
    requires n > 0 && decode(s) == Ok(value, rest)
    ensures DecodeMany(decode, s, n) == Ok([value] + others, tail)
       <==> DecodeMany(decode, rest, n - 1) == Ok(others, tail)
  {
    var got := DecodeMany(decode, rest, n - 1);
    if got.Ok? && [value] + got.value == [value] + others {
      assert ([value] + got.value)[1..] == got.value && ([value] + others)[1..] == others;
    }
  }

  lemma TailReads<T(!new)>(decode: Bytes -> Parsed<T>, frames: seq<Bytes>, values: seq<T>)
    requires |frames| == |values| > 0 && Reads(decode, frames[0], values[0])
    ensures (forall i | 0 <= i < |frames| :: Reads(decode, frames[i], values[i]))
       <==> forall i | 0 <= i < |frames| - 1 :: Reads(decode, frames[1..][i], values[1..][i])
  {
    hide Reads;
    if forall i | 0 <= i < |frames| - 1 :: Reads(decode, frames[1..][i], values[1..][i]) {
      forall i | 0 <= i < |frames| ensures Reads(decode, frames[i], values[i]) {
        if i > 0 { assert Reads(decode, frames[1..][i - 1], values[1..][i - 1]); }
      }
    }
  }
}
