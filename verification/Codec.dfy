/** The codec as it runs: encoders fill a buffer line by line, decoders consume a reader. */
module Codec {
  import opened Commons
  import opened Decimals
  import opened Text
  import opened Wire
  import Requests = RequestCodec
  import Responses = ResponseCodec

  datatype Outcome<+T> = Success(value: T) | Failure(error: Error) {
    predicate IsFailure() { Failure? }

    function PropagateFailure<U>(): Outcome<U>
      requires Failure?
    {
      Failure(error)
    }

    function Extract(): T
      requires Success?
    {
      value
    }
  }

  /** A decoder returned what parsing says and left the reader where parsing stops. */
  ghost predicate Agrees<T>(parsed: Parsed<T>, result: Outcome<T>, rest: Bytes) {
    match parsed
    case Ok(value, left) => result == Success(value) && rest == left
    case Err(error) => result == Failure(error)
  }

  method EncodeRequest(req: Requests.Request) returns (r: Outcome<Bytes>)
    ensures match Requests.Refusal(req)
      case None => r == Success(Requests.Frame(req))
      case Some(error) => r == Failure(error)
  {
    var shape := Requests.ShapeOf(req.command);
    hide Requests.ShapeOf, Line, Block, Decimal, Requests.Frame, Requests.TtlLine;
    if req.command == "" { return Failure(EmptyCommand); }
    if req.key == "" && shape != Some(Requests.Bare) { return Failure(EmptyKey); }
    if shape == Some(Requests.Stored) && req.value.None? { return Failure(NoValue); }
    if shape == Some(Requests.Valued) && req.value.None? { return Failure(NoValue); }
    var buf := Line("CMD " + req.command);
    if shape != Some(Requests.Bare) { buf := buf + Line("KEY " + req.key); }
    if shape == Some(Requests.Stored) || shape == Some(Requests.Valued) {
      buf := buf + Line("VAL " + Decimal(|req.value.value|));
      buf := buf + Block(req.value.value);
      if shape == Some(Requests.Stored) && req.ttl > 0 {
        var seconds := req.ttl / Requests.SECOND;
        if seconds <= 0 { seconds := 1; }
        buf := buf + Line("TTL " + Decimal(seconds));
      }
    }
    buf := buf + Line("END");
    FrameInOrder(req);
    r := Success(buf);
  }

  /** Nested to the left, as the buffer grows, and to the right, as the decoder reads. */
  lemma Nested(a: Bytes, b: Bytes, c: Bytes, d: Bytes, e: Bytes, f: Bytes)
    ensures a + b + c + d + e + f == a + (b + (c + (d + (e + f))))
  {
  }

  lemma FrameInOrder(req: Requests.Request)
    requires Requests.Refusal(req).None?
    ensures var cmd, key, end := Line("CMD " + req.command), Line("KEY " + req.key), Line("END");
      match Requests.ShapeOf(req.command)
      case Some(Bare) => Requests.Frame(req) == cmd + end
      case Some(Stored) =>
        Requests.Frame(req) == if req.ttl > 0 then
          cmd + key + Line("VAL " + Decimal(|req.value.value|)) + Block(req.value.value)
            + Line("TTL " + Decimal(Requests.Seconds(req.ttl))) + end
        else cmd + key + Line("VAL " + Decimal(|req.value.value|)) + Block(req.value.value) + end
      case Some(Valued) =>
        Requests.Frame(req) == cmd + key + Line("VAL " + Decimal(|req.value.value|)) + Block(req.value.value) + end
      case _ => Requests.Frame(req) == cmd + key + end
  {
    hide Requests.ShapeOf, Line, Block, Decimal;
    var cmd, key, end := Line("CMD " + req.command), Line("KEY " + req.key), Line("END");
    assert cmd + (key + end) == cmd + key + end;
    if req.value.Some? {
      var val, block := Line("VAL " + Decimal(|req.value.value|)), Block(req.value.value);
      Nested(cmd, key, val, block, Requests.TtlLine(req), end);
      assert cmd + key + val + block + "" == cmd + key + val + block;
    }
  }

  method EncodeResponse(resp: Responses.Response) returns (r: Outcome<Bytes>)
    ensures r == if resp.kind.Other? then Failure(UnknownKind) else Success(Responses.Frame(resp))
  {
    hide Line, Block, Decimal, Responses.MemberLines;
    var buf;
    match resp.kind {
      case OK => buf := Line("OK");
      case Value => buf := Line("VAL " + Decimal(|resp.value|)) + Block(resp.value);
      case NotFound => buf := Line("NIL");
      case Failure =>
        var message := resp.message;
        if message == "" { message := "error"; }
        buf := Line("ERR " + message);
      case Moved => buf := Line("MOVED " + (resp.nodeId + " " + resp.addr));
      case Owner => buf := Line("OWNER " + (resp.nodeId + " " + resp.addr));
      case Members =>
        var lines := EncodeMembers(resp.members);
        buf := Line("MEMBERS " + Decimal(|resp.members|)) + lines;
      case NotLeader => buf := Line("NOT_LEADER " + (resp.nodeId + " " + resp.addr));
      case Other(_) => return Outcome.Failure(UnknownKind);
    }
    var head, middle := Responses.Head(resp), Responses.Middle(resp);
    assert buf + Line("END") == Line(head) + (middle + Line("END")) by {
      assert Line(head) + "" == Line(head);
      assert Line(head) + middle + Line("END") == Line(head) + (middle + Line("END"));
    }
    buf := buf + Line("END");
    r := Success(buf);
  }

  method EncodeMembers(members: seq<Responses.Member>) returns (buf: Bytes)
    ensures buf == Responses.MemberLines(members)
  {
    buf := "";
    for i := 0 to |members|
      invariant buf + Responses.MemberLines(members[i..]) == Responses.MemberLines(members)
    {
      var line := Line(members[i].id + " " + members[i].addr);
      assert members[i..][0] == members[i] && members[i..][1..] == members[i + 1..];
      assert buf + (line + Responses.MemberLines(members[i + 1..]))
        == (buf + line) + Responses.MemberLines(members[i + 1..]);
      buf := buf + line;
    }
  }

  class Reader {
    var rest: Bytes

    constructor (bytes: Bytes)
      ensures rest == bytes
    {
      rest := bytes;
    }

    method ReadLine() returns (r: Outcome<string>)
      modifies this
      ensures Agrees(Wire.ReadLine(old(rest)), r, rest)
    {
      var i := Find(rest, '\n');
      if i == |rest| { return Failure(UnexpectedEnd); }
      var line := rest[..i];
      rest := rest[i + 1..];
      if line != "" && line[|line| - 1] == '\r' { line := line[..|line| - 1]; }
      r := Success(line);
    }

    method ReadFull(n: nat) returns (r: Outcome<Bytes>)
      modifies this
      ensures if n <= |old(rest)| then r == Success(old(rest)[..n]) && rest == old(rest)[n..]
        else r == Failure(UnexpectedEnd)
    {
      if |rest| < n { return Failure(UnexpectedEnd); }
      r, rest := Success(rest[..n]), rest[n..];
    }

    method ReadEnd() returns (r: Outcome<()>)
      modifies this
      ensures Agrees(Wire.ReadEnd(old(rest)), r, rest)
    {
      hide Wire.ReadLine;
      var line :- ReadLine();
      if line != "END" { return Failure(MissingEnd); }
      r := Success(());
    }

    method ReadAfter(prefix: string, missing: Error) returns (r: Outcome<string>)
      modifies this
      ensures Agrees(Wire.ReadAfter(old(rest), prefix, missing), r, rest)
    {
      hide Wire.ReadLine;
      var line :- ReadLine();
      if !(prefix <= line) { return Failure(missing); }
      r := Success(Trim(line[|prefix|..]));
    }

    method ReadBlock(length: string) returns (r: Outcome<Bytes>)
      modifies this
      ensures Agrees(Wire.ReadBlock(length, old(rest)), r, rest)
    {
      hide Wire.ReadLine, ParseInt;
      var n := ParseInt(length);
      if n.None? || n.value < 0 { return Failure(BadLength); }
      var value :- ReadFull(n.value);
      var _ :- ReadLine();
      r := Success(value);
    }

    method DecodeValueBody() returns (r: Outcome<Bytes>)
      modifies this
      ensures Agrees(Requests.DecodeValue(old(rest)), r, rest)
    {
      hide Wire.ReadAfter, Wire.ReadBlock;
      var length :- ReadAfter("VAL ", MissingValue);
      r := ReadBlock(length);
    }

    method DecodeSetRequest(req: Requests.Request) returns (r: Outcome<Requests.Request>)
      requires Requests.ShapeOf(req.command) == Some(Requests.Stored)
      modifies this
      ensures Agrees(Requests.DecodeBody(req, old(rest)), r, rest)
    {
      hide Requests.ShapeOf, Requests.DecodeValue, Wire.ReadLine, Wire.ReadEnd, ParseInt, Trim;
      var value :- DecodeValueBody();
      var full := req.(value := Some(value));
      var line :- ReadLine();
      if "TTL " <= line {
        var seconds := ParseInt(Trim(line[4..]));
        if seconds.None? || seconds.value <= 0 { return Failure(BadTtl); }
        full := full.(ttl := Requests.Wrap(seconds.value * Requests.SECOND));
        var _ :- ReadEnd();
        return Success(full);
      }
      if line != "END" { return Failure(MissingEnd); }
      r := Success(full);
    }

    method DecodeRequest() returns (r: Outcome<Requests.Request>)
      modifies this
      ensures Agrees(Requests.Decode(old(rest)), r, rest)
    {
      hide Requests.ShapeOf, Requests.DecodeValue, Requests.DecodeTtl, Wire.ReadAfter, Wire.ReadEnd;
      var command :- ReadAfter("CMD ", MissingCommand);
      if command == "" { return Failure(EmptyCommand); }
      var req := Requests.Request(command, "", None, 0);
      if Requests.ShapeOf(command) == Some(Requests.Bare) {
        var _ :- ReadEnd();
        return Success(req);
      }
      var key :- ReadAfter("KEY ", MissingKey);
      if key == "" { return Failure(EmptyKey); }
      req := req.(key := key);
      match Requests.ShapeOf(command)
      case Some(Stored) =>
        r := DecodeSetRequest(req);
      case Some(Valued) =>
        var value :- DecodeValueBody();
        var _ :- ReadEnd();
        r := Success(req.(value := Some(value)));
      case Some(KeyOnly) =>
        var _ :- ReadEnd();
        r := Success(req);
      case _ =>
        r := Failure(UnknownCommand);
    }

    method DecodeMembers(count: nat) returns (r: Outcome<seq<Responses.Member>>)
      modifies this
      ensures Agrees(Responses.DecodeMembers(count, old(rest)), r, rest)
    {
      hide Wire.ReadLine, Cut;
      var members := [];
      ghost var whole := Responses.DecodeMembers(count, rest);
      RemainingAll(whole);
      for i := 0 to count
        invariant Remaining(whole, members, Responses.DecodeMembers(count - i, rest))
      {
        RemainingStep(whole, members, count - i, rest);
        var line :- ReadLine();
        var (id, addr, ok) := Cut(line);
        if !ok || id == "" || addr == "" { return Failure(BadMember); }
        members := members + [Responses.Member(id, addr)];
      }
      r := Success(members);
    }

    method DecodeNodeLine(line: string, prefix: string, kind: Responses.Kind) returns (r: Outcome<Responses.Response>)
      requires prefix <= line
      ensures Agrees(Responses.DecodeNode(line, prefix, kind, rest), r, rest)
    {
      var parts := Fields(line[|prefix|..]);
      if |parts| != 2 { return Failure(BadNodeLine); }
      r := Success(Responses.Plain(kind).(nodeId := parts[0], addr := parts[1]));
    }

    /** The part of a response that its first line announces. */
    method DecodeHead(line: string) returns (r: Outcome<Responses.Response>)
      modifies this
      ensures Agrees(Responses.DecodeHead(line, old(rest)), r, rest)
    {
      hide Wire.ReadBlock, Responses.DecodeMembers, Responses.DecodeNode, Trim, ParseInt;
      if line == "OK" {
        r := Success(Responses.Plain(Responses.OK));
      } else if line == "NIL" {
        r := Success(Responses.Plain(Responses.NotFound));
      } else if "ERR " <= line {
        r := Success(Responses.Plain(Responses.Failure).(message := Trim(line[4..])));
      } else if "MOVED " <= line {
        r := DecodeNodeLine(line, "MOVED ", Responses.Moved);
      } else if "OWNER " <= line {
        r := DecodeNodeLine(line, "OWNER ", Responses.Owner);
      } else if "MEMBERS " <= line {
        var count := ParseInt(Trim(line[8..]));
        if count.None? || count.value < 0 { return Failure(BadCount); }
        var members :- DecodeMembers(count.value);
        r := Success(Responses.Plain(Responses.Members).(members := members));
      } else if "NOT_LEADER " <= line {
        r := DecodeNodeLine(line, "NOT_LEADER ", Responses.NotLeader);
      } else if "VAL " <= line {
        var value :- ReadBlock(Trim(line[4..]));
        r := Success(Responses.Plain(Responses.Value).(value := value));
      } else {
        r := Failure(UnknownLine);
      }
    }

    method DecodeResponse() returns (r: Outcome<Responses.Response>)
      modifies this
      ensures Agrees(Responses.Decode(old(rest)), r, rest)
    {
      hide Wire.ReadLine, Responses.DecodeHead, Wire.ReadEnd;
      var line :- ReadLine();
      var resp :- DecodeHead(line);
      var _ :- ReadEnd();
      r := Success(resp);
    }
  }

  /** The whole list is the members read so far and then those still to come. */
  ghost predicate Remaining(whole: Parsed<seq<Responses.Member>>, members: seq<Responses.Member>,
                            others: Parsed<seq<Responses.Member>>) {
    whole == match others
      case Ok(tail, rest) => Ok(members + tail, rest)
      case Err(error) => Err(error)
  }

  lemma RemainingAll(whole: Parsed<seq<Responses.Member>>)
    ensures Remaining(whole, [], whole)
    ensures forall members, rest :: Remaining(whole, members, Ok([], rest)) ==> whole == Ok(members, rest)
  {
    if whole.Ok? { assert [] + whole.value == whole.value; }
    forall members, rest | Remaining(whole, members, Ok([], rest)) ensures whole == Ok(members, rest) {
      assert members + [] == members;
    }
  }

  lemma RemainingStep(whole: Parsed<seq<Responses.Member>>, members: seq<Responses.Member>, n: nat, s: Bytes)
    requires n > 0 && Remaining(whole, members, Responses.DecodeMembers(n, s))
    ensures match Wire.ReadLine(s)
      case Err(error) => whole == Err(error)
      case Ok(line, rest) =>
        var (id, addr, ok) := Cut(line);
        if !ok || id == "" || addr == "" then whole == Err(BadMember)
        else Remaining(whole, members + [Responses.Member(id, addr)], Responses.DecodeMembers(n - 1, rest))
  {
    hide Wire.ReadLine, Cut;
    var line := Wire.ReadLine(s);
    if line.Ok? {
      var (id, addr, ok) := Cut(line.value);
      var others := Responses.DecodeMembers(n - 1, line.rest);
      if others.Ok? {
        var m := Responses.Member(id, addr);
        assert members + ([m] + others.value) == members + [m] + others.value;
      }
    }
  }
}
