/** Requests on the wire. */
module RequestCodec {
  import opened Commons
  import opened Decimals
  import opened Text
  import opened Wire

  const SECOND := 1_000_000_000

  /** `value` is `None` where the source has a nil slice; `ttl` is in nanoseconds. */
  datatype Request = Request(command: string, key: string, value: Option<Bytes>, ttl: int)

  datatype Shape = Bare | KeyOnly | Valued | Stored

  /** Which lines a command has; an unknown command has none of these shapes. */
  function ShapeOf(command: string): Option<Shape> {
    if command in ["CLUSTER_MEMBERS", "PING", "METRICS", "RAFT_STATUS"] then Some(Bare)
    else if command in ["SET", "REPL_SET"] then Some(Stored)
    else if command in ["CLUSTER_JOIN", "RAFT_REQUEST_VOTE", "RAFT_APPEND_ENTRIES"] then Some(Valued)
    else if command in ["GET", "DEL", "OWNER", "CLUSTER_LEAVE", "REPL_DEL", "REPL_GET"] then Some(KeyOnly)
    else None
  }

  // Encoding

  function Seconds(ttl: int): int {
    if ttl / SECOND <= 0 then 1 else ttl / SECOND
  }

  function Refusal(req: Request): Option<Error> {
    var shape := ShapeOf(req.command);
    if req.command == "" then Some(EmptyCommand)
    else if req.key == "" && shape != Some(Bare) then Some(EmptyKey)
    else if (shape == Some(Stored) || shape == Some(Valued)) && req.value.None? then Some(NoValue)
    else None
  }

  function TtlLine(req: Request): Bytes {
    if ShapeOf(req.command) == Some(Stored) && req.ttl > 0 then Line("TTL " + Decimal(Seconds(req.ttl))) else ""
  }

  /** Everything after the key line. */
  function Body(req: Request): Bytes
    requires Refusal(req).None?
  {
    var shape := ShapeOf(req.command);
    if shape == Some(Stored) || shape == Some(Valued) then
      Line("VAL " + Decimal(|req.value.value|)) + (Block(req.value.value) + (TtlLine(req) + Line("END")))
    else Line("END")
  }

  /** The frame of a request that is not refused. */
  function Frame(req: Request): Bytes
    requires Refusal(req).None?
  {
    Line("CMD " + req.command) + (if ShapeOf(req.command) == Some(Bare) then Line("END")
      else Line("KEY " + req.key) + Body(req))
  }

  // Decoding

  /** The 64-bit product of the seconds read and a second. */
  function Wrap(n: int): int {
    (n + 0x8000_0000_0000_0000) % 0x1_0000_0000_0000_0000 - 0x8000_0000_0000_0000
  }

  function Decode(s: Bytes): Parsed<Request> {
    var command :- ReadAfter(s, "CMD ", MissingCommand);
    if command.0 == "" then Err(EmptyCommand)
    else if ShapeOf(command.0) == Some(Bare) then
      var end :- ReadEnd(command.1);
      Ok(Request(command.0, "", None, 0), end.1)
    else
      var key :- ReadAfter(command.1, "KEY ", MissingKey);
      if key.0 == "" then Err(EmptyKey) else DecodeBody(Request(command.0, key.0, None, 0), key.1)
  }

  function DecodeBody(req: Request, s: Bytes): Parsed<Request> {
    match ShapeOf(req.command)
    case Some(Stored) =>
      var value :- DecodeValue(s);
      DecodeTtl(req.(value := Some(value.0)), value.1)
    case Some(Valued) =>
      var value :- DecodeValue(s);
      var end :- ReadEnd(value.1);
      Ok(req.(value := Some(value.0)), end.1)
    case Some(KeyOnly) =>
      var end :- ReadEnd(s);
      Ok(req, end.1)
    case _ => Err(UnknownCommand)
  }

  function DecodeValue(s: Bytes): Parsed<Bytes> {
    var length :- ReadAfter(s, "VAL ", MissingValue);
    ReadBlock(length.0, length.1)
  }

  function DecodeTtl(req: Request, s: Bytes): Parsed<Request> {
    var line :- ReadLine(s);
    if "TTL " <= line.0 then
      match ParseInt(Trim(line.0[4..]))
      case None => Err(BadTtl)
      case Some(n) =>
        if n <= 0 then Err(BadTtl)
        else
          var end :- ReadEnd(line.1);
          Ok(req.(ttl := Wrap(n * SECOND)), end.1)
    else if line.0 != "END" then Err(MissingEnd) else Ok(req, line.1)
  }

  // Round trip

  /** What survives the wire: the key trimmed, the fields the command uses, whole seconds of a positive TTL. */
  function Canonical(req: Request): Request {
    match ShapeOf(req.command)
    case Some(Bare) => Request(req.command, "", None, 0)
    case Some(Valued) => Request(req.command, Trim(req.key), req.value, 0)
    case Some(Stored) => Request(req.command, Trim(req.key), req.value, if req.ttl > 0 then Seconds(req.ttl) * SECOND
      else 0)
    case _ => Request(req.command, Trim(req.key), None, 0)
  }

  /** What the fields of a Go value can hold: a length and a duration of 64 bits. */
  predicate Fits(req: Request) {
    (req.value.Some? ==> |req.value.value| <= MAX_INT) && req.ttl <= MAX_INT
  }

  /** A request of the table that is not refused. */
  predicate Encodes(req: Request) {
    Refusal(req).None? && Fits(req) && ShapeOf(req.command).Some?
  }

  /** A single-line key with something to keep after trimming. */
  predicate KeyTravels(req: Request) {
    ShapeOf(req.command) == Some(Bare) || ('\n' !in req.key && Trim(req.key) != "")
  }

  lemma ReadNumber(prefix: string, n: nat, tail: Bytes, missing: Error)
    requires prefix != "" && prefix[|prefix| - 1] != '\r' && '\n' !in prefix
    ensures ReadAfter(Line(prefix + Decimal(n)) + tail, prefix, missing) == Ok(Decimal(n), tail)
  {
    DecimalTidy(n);
    TrimTidy(Decimal(n));
    ReadAfterOf(prefix, Decimal(n), tail, missing);
  }

  lemma DecodeValueOf(value: Bytes, tail: Bytes)
    requires |value| <= MAX_INT
    ensures DecodeValue(Line("VAL " + Decimal(|value|)) + (Block(value) + tail)) == Ok(value, tail)
  {
    hide ReadAfter, ReadBlock, Line, Block, Decimal;
    ReadNumber("VAL ", |value|, Block(value) + tail, MissingValue);
    ReadBlockOf(value, tail);
  }

  lemma SecondsFit(ttl: int)
    requires 0 < ttl <= MAX_INT
    ensures 1 <= Seconds(ttl) <= MAX_INT && Wrap(Seconds(ttl) * SECOND) == Seconds(ttl) * SECOND
  {
    var s := ttl / SECOND;
    assert 0 <= s * SECOND <= ttl;
  }

  lemma DecodeTtlOf(req: Request, into: Request, tail: Bytes)
    requires ShapeOf(req.command) == Some(Stored) && Fits(req) && into.ttl == 0
    ensures DecodeTtl(into, TtlLine(req) + (Line("END") + tail))
         == Ok(into.(ttl := if req.ttl > 0 then Seconds(req.ttl) * SECOND else 0), tail)
  {
    hide ShapeOf, ReadEnd, ReadLine, Line, Decimal, Trim, Wrap;
    ReadEndOf(tail);
    if req.ttl > 0 {
      SecondsFit(req.ttl);
      var n := Seconds(req.ttl);
      ReadLineOf("TTL " + Decimal(n), Line("END") + tail) by { DecimalTidy(n); }
      DecimalTidy(n);
      TrimAfter("TTL ", Decimal(n));
      TrimTidy(Decimal(n));
      ParseDecimal(n);
    } else {
      assert TtlLine(req) + (Line("END") + tail) == Line("END") + tail;
      ReadLineOf("END", tail);
    }
  }

  lemma NoTtlLine(req: Request)
    requires ShapeOf(req.command) != Some(Stored)
    ensures TtlLine(req) == ""
  {
  }

  lemma DecodeBodyOf(req: Request, tail: Bytes)
    requires Refusal(req).None? && Fits(req) && ShapeOf(req.command) != Some(Bare)
    ensures DecodeBody(Request(req.command, Trim(req.key), None, 0), Body(req) + tail)
         == if ShapeOf(req.command).None? then Err(UnknownCommand) else Ok(Canonical(req), tail)
  {
    hide ShapeOf, ReadEnd, ReadLine, Line, Block, Decimal, Trim, DecodeValue, DecodeTtl, TtlLine;
    var shape := ShapeOf(req.command);
    if shape == Some(KeyOnly) {
      ReadEndOf(tail);
    } else if shape == Some(Stored) || shape == Some(Valued) {
      var value := req.value.value;
      var after := TtlLine(req) + Line("END");
      DecodeValueOf(value, after + tail);
      assert Body(req) + tail == Line("VAL " + Decimal(|value|)) + (Block(value) + (after + tail));
      if shape == Some(Stored) {
        DecodeTtlOf(req, Request(req.command, Trim(req.key), req.value, 0), tail);
        assert after + tail == TtlLine(req) + (Line("END") + tail);
      } else {
        ReadEndOf(tail);
        NoTtlLine(req);
        assert after + tail == Line("END") + tail;
      }
    }
  }

  lemma KnownIsTidy(command: string)
    requires ShapeOf(command).Some?
    ensures Tidy(command)
  {
  }

  /** What is read off the key line, and where the body starts. */
  function KeyRead(req: Request, tail: Bytes): (string, Bytes)
    requires Refusal(req).None?
  {
    var i := Find(req.key, '\n');
    if '\n' in req.key && i < |req.key| then (Trim(req.key[..i]), Line(req.key[i + 1..]) + (Body(req) + tail))
    else (Trim(req.key), Body(req) + tail)
  }

  /** A bare command is read off its line, any other goes on with its key. */
  lemma DecodeFrame(req: Request, tail: Bytes)
    requires Refusal(req).None? && Tidy(req.command)
    ensures Decode(Frame(req) + tail) ==
      if ShapeOf(req.command) == Some(Bare) then Ok(Canonical(req), tail)
      else
        var (key, rest) := KeyRead(req, tail);
        if key == "" then Err(EmptyKey) else DecodeBody(Request(req.command, key, None, 0), rest)
  {
    hide ShapeOf, ReadAfter, ReadEnd, Line, Body, Trim, DecodeBody, Find;
    var rest := if ShapeOf(req.command) == Some(Bare) then Line("END") else Line("KEY " + req.key) + Body(req);
    assert Frame(req) + tail == Line("CMD " + req.command) + (rest + tail);
    ReadAfterOf("CMD ", req.command, rest + tail, MissingCommand);
    TrimTidy(req.command);
    if ShapeOf(req.command) == Some(Bare) {
      ReadEndOf(tail);
    } else {
      assert rest + tail == Line("KEY " + req.key) + (Body(req) + tail);
      KeyLineRead(req, tail);
    }
  }

  lemma KeyLineRead(req: Request, tail: Bytes)
    requires Refusal(req).None?
    ensures var (key, rest) := KeyRead(req, tail);
      ReadAfter(Line("KEY " + req.key) + (Body(req) + tail), "KEY ", MissingKey) == Ok(key, rest)
  {
    hide ReadAfter, Line, Body, Trim, Find;
    if '\n' in req.key {
      ReadAfterBroken("KEY ", req.key, Body(req) + tail, MissingKey);
    } else {
      ReadAfterOf("KEY ", req.key, Body(req) + tail, MissingKey);
    }
  }

  lemma BodyKeepsKey(req: Request, s: Bytes)
    ensures DecodeBody(req, s).Ok? ==> DecodeBody(req, s).value.key == req.key
  {
    hide ShapeOf, ReadEnd, ReadLine, DecodeValue, Trim, ParseInt, Wrap;
  }

  /** A body does not start with white space. */
  lemma BlankIsNoBody(req: Request, x: string, tail: Bytes)
    requires AllSpace(x)
    ensures DecodeBody(req, Line(x) + tail).Err?
  {
    hide ShapeOf, ReadEnd, ReadAfter, Line, AllSpace, ReadBlock;
    BlankIsNoEnd(x, tail);
    BlankIsNoPrefix("VAL ", x, tail, MissingValue);
  }

  /** A key of several lines arrives as another key, if at all. */
  lemma BrokenKey(req: Request, tail: Bytes)
    requires Refusal(req).None? && ShapeOf(req.command).Some? && ShapeOf(req.command) != Some(Bare) && '\n' in req.key
    ensures var got := Decode(Frame(req) + tail); got.Err? || got.value != Canonical(req)
  {
    hide ShapeOf, Decode, Frame, Trim, Line, Body, DecodeBody, Find, AllSpace;
    KnownIsTidy(req.command);
    DecodeFrame(req, tail);
    TrimmedToFirstLine(req.key);
    var i := Find(req.key, '\n');
    var key, more := Trim(req.key[..i]), req.key[i + 1..];
    BodyKeepsKey(Request(req.command, key, None, 0), Line(more) + (Body(req) + tail));
    if key == Trim(req.key) {
      BlankIsNoBody(Request(req.command, key, None, 0), more, Body(req) + tail);
    }
  }

  /** Decoding an encoded request gives its canonical form, and leaves exactly what follows the frame, if
      and only if its key is a single line that is not white space alone. */
  lemma RequestRoundTrip(req: Request, tail: Bytes)
    requires Encodes(req)
    ensures Refusal(req).None?
    ensures var got := Decode(Frame(req) + tail);
      if KeyTravels(req) then got == Ok(Canonical(req), tail) else got.Err? || got.value != Canonical(req)
  {
    hide ShapeOf, Decode, Frame, Trim, Line, Body, DecodeBody;
    KnownIsTidy(req.command);
    DecodeFrame(req, tail);
    if ShapeOf(req.command) != Some(Bare) {
      if '\n' in req.key { BrokenKey(req, tail); } else { DecodeBodyOf(req, tail); }
    }
  }

  /** Any other command goes out and is refused on arrival. */
  lemma UnknownIsRefused(req: Request, tail: Bytes)
    requires Refusal(req).None? && ShapeOf(req.command).None? && Tidy(req.command)
    ensures Decode(Frame(req) + tail) == Err(if KeyRead(req, tail).0 == "" then EmptyKey else UnknownCommand)
  {
    hide ShapeOf, Decode, Frame, Trim, Line, Body, Find;
    DecodeFrame(req, tail);
  }

  // Streams

  function Frames(reqs: seq<Request>): seq<Bytes>
    requires forall req | req in reqs :: Encodes(req)
  {
    seq(|reqs|, i requires 0 <= i < |reqs| => assert Encodes(reqs[i]); Frame(reqs[i]))
  }

  function Canonicals(reqs: seq<Request>): seq<Request> {
    seq(|reqs|, i requires 0 <= i < |reqs| => Canonical(reqs[i]))
  }

  lemma ReadsIff(req: Request)
    requires Encodes(req)
    ensures Refusal(req).None?
    ensures if KeyTravels(req) then Reads(Decode, Frame(req), Canonical(req))
            else Misreads(Decode, Frame(req), Canonical(req))
    ensures Reads(Decode, Frame(req), Canonical(req)) ==> KeyTravels(req)
  {
    hide Decode, Frame, Canonical, Encodes, KeyTravels, Refusal;
    RequestRoundTrip(req, "");
    forall tail ensures var got := Decode(Frame(req) + tail);
      if KeyTravels(req) then got == Ok(Canonical(req), tail) else got.Err? || got.value != Canonical(req)
    {
      RequestRoundTrip(req, tail);
    }
    if Reads(Decode, Frame(req), Canonical(req)) { assert Decode(Frame(req) + "") == Ok(Canonical(req), ""); }
  }

  /** A connection carries a list of requests, all of them, in order and with every byte consumed, if and
      only if each key is one that travels. */
  lemma RequestStreamRoundTrip(reqs: seq<Request>, tail: Bytes)
    requires forall req | req in reqs :: Encodes(req)
    ensures DecodeMany(Decode, Concat(Frames(reqs)) + tail, |reqs|) == Ok(Canonicals(reqs), tail)
       <==> forall req | req in reqs :: KeyTravels(req)
  {
    hide Decode, Frame, Canonical, KeyTravels, Reads, Misreads, Encodes;
    var frames, values := Frames(reqs), Canonicals(reqs);
    forall i | 0 <= i < |reqs|
      ensures Reads(Decode, frames[i], values[i]) <==> KeyTravels(reqs[i])
      ensures Reads(Decode, frames[i], values[i]) || Misreads(Decode, frames[i], values[i])
    {
      ReadsIff(reqs[i]);
    }
    StreamRoundTrip(Decode, frames, values, tail);
  }

  /** What comes out of the wire goes through it unchanged. */
  lemma CanonicalIsStable(req: Request)
    requires Encodes(req) && KeyTravels(req)
    ensures Encodes(Canonical(req)) && KeyTravels(Canonical(req)) && Canonical(Canonical(req)) == Canonical(req)
  {
    hide ShapeOf;
    TrimStays(req.key);
    if req.ttl > 0 { SecondsFit(req.ttl); SecondsStay(req.ttl); }
  }

  lemma SecondsStay(ttl: int)
    requires ttl > 0
    ensures Seconds(ttl) > 0 && Seconds(Seconds(ttl) * SECOND) == Seconds(ttl)
  {
    assert (Seconds(ttl) * SECOND) / SECOND == Seconds(ttl);
  }

  lemma TrimStays(s: string)
    ensures Trim(Trim(s)) == Trim(s) && (forall c | c in Trim(s) :: c in s)
  {
    TrimRightEnds(s);
    TrimLeftEnds(TrimRight(s));
  }

  lemma {:induction false} TrimRightEnds(s: string)
    ensures var t := TrimRight(s);
      (t != "" ==> !Space(t[|t| - 1])) && forall c | c in t :: c in s
  {
    if s != "" && Space(s[|s| - 1]) { TrimRightEnds(s[..|s| - 1]); }
  }

  lemma {:induction false} TrimLeftEnds(s: string)
    ensures var t := TrimLeft(s);
      (t != "" ==> !Space(t[0]) && t[|t| - 1] == s[|s| - 1]) && forall c | c in t :: c in s
  {
    if s != "" && Space(s[0]) { TrimLeftEnds(s[1..]); }
  }
}
