/** The requests of the wire format command by command: the bytes of each, what comes back, and what a
    decoder accepts at all. */
module Commands {
  import opened Commons
  import opened Decimals
  import opened Text
  import opened Wire
  import opened RequestCodec

  /** Nanoseconds as whole seconds, at least one. */
  function AtLeastOneSecond(ttl: int): int {
    if ttl >= 1_000_000_000 then ttl / 1_000_000_000 else 1
  }

  ghost predicate TravellingKey(key: string) {
    '\n' !in key && Trim(key) != ""
  }

  lemma StoredShape(command: string)
    requires command in ["SET", "REPL_SET"]
    ensures ShapeOf(command) == Some(Stored) && command != ""
  {
    if command == "SET" {} else { assert command == "REPL_SET"; }
  }

  lemma ValuedShape(command: string)
    requires command in ["CLUSTER_JOIN", "RAFT_REQUEST_VOTE", "RAFT_APPEND_ENTRIES"]
    ensures ShapeOf(command) == Some(Valued) && command != ""
  {
    if command == "CLUSTER_JOIN" {} else if command == "RAFT_REQUEST_VOTE" {} else {
      assert command == "RAFT_APPEND_ENTRIES";
    }
  }

  lemma KeyShape(command: string)
    requires command in ["GET", "DEL", "OWNER", "CLUSTER_LEAVE", "REPL_DEL", "REPL_GET"]
    ensures ShapeOf(command) == Some(KeyOnly) && command != ""
  {
  }

  lemma BareShape(command: string)
    requires command in ["CLUSTER_MEMBERS", "PING", "METRICS", "RAFT_STATUS"]
    ensures ShapeOf(command) == Some(Bare) && command != ""
  {
  }

  /** A frame with a value: three lines, the bytes of the value, an optional line and the end. */
  function ValueText(cmd: string, key: string, val: string, value: Bytes, more: Bytes): Bytes {
    cmd + "\n" + (key + "\n" + (val + "\n" + (value + "\n" + (more + "END\n"))))
  }

  function TtlText(ttl: int): Bytes {
    if ttl > 0 then "TTL " + Decimal(AtLeastOneSecond(ttl)) + "\n" else ""
  }

  lemma ValueFrame(req: Request)
    requires Refusal(req).None? && (ShapeOf(req.command) == Some(Stored) || ShapeOf(req.command) == Some(Valued))
    ensures Frame(req) == ValueText("CMD " + req.command, "KEY " + req.key, "VAL " + Decimal(|req.value.value|),
      req.value.value, TtlLine(req))
  {
    hide ShapeOf, Decimal, TtlLine, ValueText, Line, Block;
    LinesText("CMD " + req.command, "KEY " + req.key, "VAL " + Decimal(|req.value.value|), req.value.value,
      TtlLine(req));
  }

  lemma BytesOfValue(command: string, key: string, value: Bytes, ttl: int)
    requires (ShapeOf(command) == Some(Stored) || ShapeOf(command) == Some(Valued)) && command != "" && key != ""
    ensures var req := Request(command, key, Some(value), ttl);
      && Refusal(req) == None
      && Frame(req) == ValueText("CMD " + command, "KEY " + key, "VAL " + Decimal(|value|), value,
           if ShapeOf(command) == Some(Stored) then TtlText(ttl) else "")
    ensures Refusal(Request(command, key, None, ttl)) == Some(NoValue)
    ensures Refusal(Request(command, "", Some(value), ttl)) == Some(EmptyKey)
  {
    hide ShapeOf, Decimal, Frame, ValueText;
    ValueFrame(Request(command, key, Some(value), ttl));
  }

  lemma LinesText(cmd: string, key: string, val: string, value: Bytes, more: Bytes)
    ensures Line(cmd) + (Line(key) + (Line(val) + (Block(value) + (more + Line("END")))))
         == ValueText(cmd, key, val, value, more)
  {
    assert "END" + "\n" == "END\n";
  }

  // Commands that store a value with a lifetime

  lemma StoredBytes(command: string, key: string, value: Bytes, ttl: int)
    requires command in ["SET", "REPL_SET"] && key != ""
    ensures var req := Request(command, key, Some(value), ttl);
      && Refusal(req) == None
      && Frame(req) == ValueText("CMD " + command, "KEY " + key, "VAL " + Decimal(|value|), value, TtlText(ttl))
    ensures Refusal(Request(command, key, None, ttl)) == Some(NoValue)
    ensures Refusal(Request(command, "", Some(value), ttl)) == Some(EmptyKey)
  {
    StoredShape(command);
    hide ShapeOf, Frame, ValueText, TtlText, Refusal;
    BytesOfValue(command, key, value, ttl);
  }

  lemma StoredComesBack(command: string, key: string, value: Bytes, ttl: int, tail: Bytes)
    requires command in ["SET", "REPL_SET"] && TravellingKey(key) && |value| <= MAX_INT && ttl <= MAX_INT
    ensures key != ""
    ensures var req := Request(command, key, Some(value), ttl);
      Refusal(req) == None && Decode(Frame(req) + tail)
      == Ok(Request(command, Trim(key), Some(value),
                    if ttl > 0 then AtLeastOneSecond(ttl) * 1_000_000_000 else 0), tail)
  {
    StoredShape(command);
    hide Decode, Frame, Trim, ShapeOf, Refusal;
    ValueComesBack(command, key, value, ttl, tail);
  }

  lemma ValueComesBack(command: string, key: string, value: Bytes, ttl: int, tail: Bytes)
    requires (ShapeOf(command) == Some(Stored) || ShapeOf(command) == Some(Valued)) && command != ""
    requires TravellingKey(key) && |value| <= MAX_INT && ttl <= MAX_INT
    ensures key != ""
    ensures var req, kept := Request(command, key, Some(value), ttl), ShapeOf(command) == Some(Stored) && ttl > 0;
      && Refusal(req) == None
      && Decode(Frame(req) + tail)
         == Ok(Request(command, Trim(key), Some(value),
                       if kept then AtLeastOneSecond(ttl) * 1_000_000_000 else 0), tail)
  {
    hide Decode, Frame, Trim, ShapeOf;
    TrimOfNothing();
    RequestRoundTrip(Request(command, key, Some(value), ttl), tail);
  }

  lemma TrimOfNothing()
    ensures Trim("") == ""
  {
  }

  // Commands with a value alone

  lemma ValuedBytes(command: string, key: string, value: Bytes, ttl: int)
    requires command in ["CLUSTER_JOIN", "RAFT_REQUEST_VOTE", "RAFT_APPEND_ENTRIES"] && key != ""
    ensures var req := Request(command, key, Some(value), ttl);
      && Refusal(req) == None
      && Frame(req) == ValueText("CMD " + command, "KEY " + key, "VAL " + Decimal(|value|), value, "")
    ensures Refusal(Request(command, key, None, ttl)) == Some(NoValue)
    ensures Refusal(Request(command, "", Some(value), ttl)) == Some(EmptyKey)
  {
    ValuedShape(command);
    hide ShapeOf, Frame, ValueText, TtlText, Refusal;
    BytesOfValue(command, key, value, ttl);
  }

  lemma ValuedComesBack(command: string, key: string, value: Bytes, ttl: int, tail: Bytes)
    requires command in ["CLUSTER_JOIN", "RAFT_REQUEST_VOTE", "RAFT_APPEND_ENTRIES"] && TravellingKey(key)
    requires |value| <= MAX_INT && ttl <= MAX_INT
    ensures key != ""
    ensures var req := Request(command, key, Some(value), ttl);
      Refusal(req) == None && Decode(Frame(req) + tail) == Ok(Request(command, Trim(key), Some(value), 0), tail)
  {
    ValuedShape(command);
    hide Decode, Frame, Trim, ShapeOf, Refusal;
    ValueComesBack(command, key, value, ttl, tail);
  }

  // Commands with a key alone

  lemma KeyBytes(command: string, key: string, value: Option<Bytes>, ttl: int)
    requires command in ["GET", "DEL", "OWNER", "CLUSTER_LEAVE", "REPL_DEL", "REPL_GET"] && key != ""
    ensures var req := Request(command, key, value, ttl);
      Refusal(req) == None && Frame(req) == "CMD " + command + "\n" + ("KEY " + key + "\n" + "END\n")
    ensures Refusal(Request(command, "", value, ttl)) == Some(EmptyKey)
  {
    KeyShape(command);
    hide ShapeOf;
    assert "END" + "\n" == "END\n";
  }

  lemma KeyComesBack(command: string, key: string, tail: Bytes)
    requires command in ["GET", "DEL", "OWNER", "CLUSTER_LEAVE", "REPL_DEL", "REPL_GET"] && TravellingKey(key)
    ensures key != ""
    ensures var req := Request(command, key, None, 0);
      Refusal(req) == None && Decode(Frame(req) + tail) == Ok(Request(command, Trim(key), None, 0), tail)
  {
    KeyShape(command);
    hide Decode, Frame, Trim, ShapeOf;
    TrimOfNothing();
    RequestRoundTrip(Request(command, key, None, 0), tail);
  }

  // Commands on their own

  lemma BareBytes(command: string, key: string, value: Option<Bytes>, ttl: int)
    requires command in ["CLUSTER_MEMBERS", "PING", "METRICS", "RAFT_STATUS"]
    ensures var req := Request(command, key, value, ttl);
      Refusal(req) == None && Frame(req) == "CMD " + command + "\n" + "END\n"
  {
  }

  lemma BareComesBack(command: string, tail: Bytes)
    requires command in ["CLUSTER_MEMBERS", "PING", "METRICS", "RAFT_STATUS"]
    ensures var req := Request(command, "", None, 0);
      Refusal(req) == None && Decode(Frame(req) + tail) == Ok(Request(command, "", None, 0), tail)
  {
    BareShape(command);
    hide Decode, Frame, ShapeOf;
    RequestRoundTrip(Request(command, "", None, 0), tail);
  }

  /** Nothing goes out without a command. */
  lemma EmptyCommandRefused(key: string, value: Option<Bytes>, ttl: int)
    ensures Refusal(Request("", key, value, ttl)) == Some(EmptyCommand)
  {
  }

  // What a decoder accepts

  /** The request has just the fields its command calls for. */
  ghost predicate FieldsOf(req: Request) {
    if req.command in ["SET", "REPL_SET"] then req.key != "" && req.value.Some?
    else if req.command in ["CLUSTER_JOIN", "RAFT_REQUEST_VOTE", "RAFT_APPEND_ENTRIES"] then
      req.key != "" && req.value.Some? && req.ttl == 0
    else if req.command in ["GET", "DEL", "OWNER", "CLUSTER_LEAVE", "REPL_DEL", "REPL_GET"] then
      req.key != "" && req.value.None? && req.ttl == 0
    else
      && req.command in ["CLUSTER_MEMBERS", "PING", "METRICS", "RAFT_STATUS"]
      && req.key == "" && req.value.None? && req.ttl == 0
  }

  lemma DecodedFields(s: Bytes)
    ensures Decode(s).Ok? ==> FieldsOf(Decode(s).value)
  {
    hide ReadAfter, ReadEnd, ReadLine, DecodeValue, ParseInt, Trim, Wrap;
  }

  /** What is left is the end of what there was, and the line before it is `END`. */
  ghost predicate EndedBefore(s: Bytes, rest: Bytes) {
    exists used :: s == used + "END\n" + rest || s == used + "END\r\n" + rest
  }

  ghost predicate Leaves(s: Bytes, rest: Bytes) {
    |rest| <= |s| && s[|s| - |rest|..] == rest
  }

  lemma LeavesBoth(s: Bytes, mid: Bytes, rest: Bytes)
    requires Leaves(s, mid) && Leaves(mid, rest)
    ensures Leaves(s, rest)
  {
  }

  lemma LineLeaves(s: Bytes)
    ensures ReadLine(s).Ok? ==> Leaves(s, ReadLine(s).rest)
  {
  }

  lemma AfterLeaves(s: Bytes, prefix: string, missing: Error)
    ensures var got := ReadAfter(s, prefix, missing); got.Ok? ==> Leaves(s, got.rest) && prefix <= s
  {
    hide Trim, Leaves;
    LineLeaves(s);
    if ReadLine(s).Ok? { LineStarts(s); }
  }

  lemma LineStarts(s: Bytes)
    requires ReadLine(s).Ok?
    ensures ReadLine(s).value <= s
  {
  }

  lemma BlockLeaves(length: string, s: Bytes)
    ensures var got := ReadBlock(length, s); got.Ok? ==> Leaves(s, got.rest)
  {
    hide ReadLine, ParseInt;
    var n := ParseInt(length);
    if n.Some? && 0 <= n.value <= |s| { LineLeaves(s[n.value..]); }
  }

  lemma EndLeaves(s: Bytes, mid: Bytes)
    requires Leaves(s, mid)
    ensures ReadEnd(mid).Ok? ==> EndedBefore(s, ReadEnd(mid).rest)
  {
    if ReadEnd(mid).Ok? {
      var i, used := Find(mid, '\n'), s[..|s| - |mid|];
      assert mid == mid[..i] + "\n" + mid[i + 1..] && s == used + mid;
      if mid[..i] == "END" {
        assert s == used + "END\n" + mid[i + 1..];
      } else {
        assert mid[..i] == "END" + "\r";
        assert s == used + "END\r\n" + mid[i + 1..];
      }
    }
  }

  lemma ValueLeaves(s: Bytes)
    ensures DecodeValue(s).Ok? ==> Leaves(s, DecodeValue(s).rest)
  {
    hide ReadAfter, ReadBlock, Leaves;
    AfterLeaves(s, "VAL ", MissingValue);
    var got := ReadAfter(s, "VAL ", MissingValue);
    if got.Ok? {
      BlockLeaves(got.value, got.rest);
      if ReadBlock(got.value, got.rest).Ok? { LeavesBoth(s, got.rest, ReadBlock(got.value, got.rest).rest); }
    }
  }

  lemma TtlEnds(req: Request, s: Bytes, mid: Bytes)
    requires Leaves(s, mid)
    ensures DecodeTtl(req, mid).Ok? ==> EndedBefore(s, DecodeTtl(req, mid).rest)
  {
    hide Leaves, EndedBefore, ReadLine, ParseInt, Trim, Wrap;
    EndLeaves(s, mid);
    LineLeaves(mid);
    var line := ReadLine(mid);
    if line.Ok? && "TTL " <= line.value {
      LeavesBoth(s, mid, line.rest);
      EndLeaves(s, line.rest);
    }
  }

  lemma BodyEnds(req: Request, s: Bytes, mid: Bytes)
    requires Leaves(s, mid)
    ensures DecodeBody(req, mid).Ok? ==> EndedBefore(s, DecodeBody(req, mid).rest)
  {
    hide Leaves, EndedBefore, ReadEnd, DecodeValue, DecodeTtl, ShapeOf;
    EndLeaves(s, mid);
    ValueLeaves(mid);
    var value := DecodeValue(mid);
    if value.Ok? {
      LeavesBoth(s, mid, value.rest);
      EndLeaves(s, value.rest);
      TtlEnds(req.(value := Some(value.value)), s, value.rest);
    }
  }

  /** A decoder accepts nothing but frames: they start with the command line, end with the line `END`
      right before what is left, and give the fields their command calls for. */
  lemma AcceptsOnlyFrames(s: Bytes)
    ensures var got := Decode(s);
      got.Ok? ==> "CMD " <= s && EndedBefore(s, got.rest) && FieldsOf(got.value)
  {
    DecodedFields(s);
    hide Leaves, EndedBefore, ReadEnd, ReadAfter, DecodeBody, ShapeOf, FieldsOf;
    AfterLeaves(s, "CMD ", MissingCommand);
    var command := ReadAfter(s, "CMD ", MissingCommand);
    if command.Ok? {
      EndLeaves(s, command.rest);
      AfterLeaves(command.rest, "KEY ", MissingKey);
      var key := ReadAfter(command.rest, "KEY ", MissingKey);
      if key.Ok? {
        LeavesBoth(s, command.rest, key.rest);
        BodyEnds(Request(command.value, key.value, None, 0), s, key.rest);
      }
    }
  }

  // Numbers that are none

  ghost predicate NotPositive(text: string) {
    ParseInt(text).None? || ParseInt(text).value <= 0
  }

  /** A lifetime that is no positive number is refused. */
  lemma BadLifetimeRefused(req: Request, text: string, tail: Bytes)
    requires '\n' !in text && NotPositive(Trim(text))
    ensures DecodeTtl(req, Line("TTL " + text) + tail) == Err(BadTtl)
  {
    hide ParseInt, Trim, ReadLine, Line, Wrap;
    ReadLineOf("TTL " + text, tail);
    TrimAfter("TTL ", text);
  }

  /** A length that is no number or below zero is refused. */
  lemma BadLengthRefused(text: string, tail: Bytes)
    requires '\n' !in text && (ParseInt(Trim(text)).None? || ParseInt(Trim(text)).value < 0)
    ensures DecodeValue(Line("VAL " + text) + tail) == Err(BadLength)
  {
    hide ParseInt, Trim, ReadAfter, Line;
    ReadAfterOf("VAL ", text, tail, MissingValue);
  }

  /** A positive lifetime is the product of 64 bits, which may come out negative. */
  lemma LifetimeWraps(req: Request, n: nat, tail: Bytes) returns (k: int)
    requires 0 < n <= MAX_INT
    ensures var got := DecodeTtl(req, Line("TTL " + Decimal(n)) + (Line("END") + tail));
      && got.Ok? && got.rest == tail && got.value == req.(ttl := got.value.ttl)
      && -0x8000_0000_0000_0000 <= got.value.ttl <= 0x7fff_ffff_ffff_ffff
      && got.value.ttl == n * 1_000_000_000 + k * 0x1_0000_0000_0000_0000
  {
    k := WrapSpec(n * 1_000_000_000);
    DecimalTidy(n);
    hide ParseInt, Trim, ReadLine, ReadEnd, Line, Wrap, Decimal, Chomp, Tidy;
    ReadLineOf("TTL " + Decimal(n), Line("END") + tail);
    TrimAfter("TTL ", Decimal(n));
    TrimTidy(Decimal(n));
    ParseDecimal(n);
    ReadEndOf(tail);
  }

  lemma WrapSpec(v: int) returns (k: int)
    ensures -0x8000_0000_0000_0000 <= Wrap(v) <= 0x7fff_ffff_ffff_ffff
    ensures Wrap(v) == v + k * 0x1_0000_0000_0000_0000
  {
    k := -((v + 0x8000_0000_0000_0000) / 0x1_0000_0000_0000_0000);
  }

  /** Whatever else stands on the line where a value ends is passed over. */
  lemma RestOfLineIgnored(value: Bytes, more: string, tail: Bytes)
    requires |value| <= MAX_INT && '\n' !in more
    ensures ReadBlock(Decimal(|value|), value + (Line(more) + tail)) == Ok(value, tail)
  {
    ParseDecimal(|value|);
    ReadLineOf(more, tail);
    hide ParseInt, Decimal, ReadLine, Line;
    var s := value + (Line(more) + tail);
    assert s[..|value|] == value && s[|value|..] == Line(more) + tail;
  }

  /** White space around a command does not matter. */
  lemma PaddedCommand(padded: string, command: string, rest: Bytes)
    requires '\n' !in padded && '\n' !in command && Trim(padded) == Trim(command)
    ensures Decode(Line("CMD " + padded) + rest) == Decode(Line("CMD " + command) + rest)
  {
    hide Trim, ReadAfter, Line, ReadEnd, DecodeBody, ShapeOf;
    ReadAfterOf("CMD ", padded, rest, MissingCommand);
    ReadAfterOf("CMD ", command, rest, MissingCommand);
  }
}
