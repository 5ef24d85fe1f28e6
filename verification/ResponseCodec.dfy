/** Responses on the wire. */
module ResponseCodec {
  import opened Decimals
  import opened Text
  import opened Wire

  datatype Kind = OK | Value | NotFound | Failure | Moved | Owner | Members | NotLeader | Other(code: int)

  datatype Member = Member(id: string, addr: string)

  datatype Response =
    Response(kind: Kind, value: Bytes, message: string, nodeId: string, addr: string, members: seq<Member>)

  /** A response of a kind with every other field empty. */
  function Plain(kind: Kind): Response { Response(kind, "", "", "", "", []) }

  // Encoding

  function Message(resp: Response): string {
    if resp.message == "" then "error" else resp.message
  }

  function MemberLines(members: seq<Member>): Bytes {
    if members == [] then "" else Line(members[0].id + " " + members[0].addr) + MemberLines(members[1..])
  }

  /** The first line. */
  function Head(resp: Response): string
    requires !resp.kind.Other?
  {
    match resp.kind
    case OK => "OK"
    case Value => "VAL " + Decimal(|resp.value|)
    case NotFound => "NIL"
    case Failure => "ERR " + Message(resp)
    case Moved => "MOVED " + (resp.nodeId + " " + resp.addr)
    case Owner => "OWNER " + (resp.nodeId + " " + resp.addr)
    case Members => "MEMBERS " + Decimal(|resp.members|)
    case NotLeader => "NOT_LEADER " + (resp.nodeId + " " + resp.addr)
  }

  /** What stands between the first line and the last. */
  function Middle(resp: Response): Bytes {
    match resp.kind
    case Value => Block(resp.value)
    case Members => MemberLines(resp.members)
    case _ => ""
  }

  function Frame(resp: Response): Bytes
    requires !resp.kind.Other?
  {
    Line(Head(resp)) + (Middle(resp) + Line("END"))
  }

  // Decoding

  function DecodeNode(line: string, prefix: string, kind: Kind, s: Bytes): Parsed<Response>
    requires prefix <= line
  {
    var parts := Fields(line[|prefix|..]);
    if |parts| != 2 then Err(BadNodeLine) else Ok(Plain(kind).(nodeId := parts[0], addr := parts[1]), s)
  }

  function DecodeMembers(n: nat, s: Bytes): Parsed<seq<Member>>
    decreases n
  {
    if n == 0 then Ok([], s)
    else
      var line :- ReadLine(s);
      var (id, addr, ok) := Cut(line.0);
      if !ok || id == "" || addr == "" then Err(BadMember)
      else
        var others :- DecodeMembers(n - 1, line.1);
        Ok([Member(id, addr)] + others.0, others.1)
  }

  function DecodeCount(length: string, s: Bytes): Parsed<Response> {
    match ParseInt(length)
    case None => Err(BadCount)
    case Some(n) =>
      if n < 0 then Err(BadCount)
      else
        var members :- DecodeMembers(n, s);
        Ok(Plain(Members).(members := members.0), members.1)
  }

  function DecodeHead(line: string, s: Bytes): Parsed<Response> {
    if line == "OK" then Ok(Plain(OK), s)
    else if line == "NIL" then Ok(Plain(NotFound), s)
    else if "ERR " <= line then Ok(Plain(Failure).(message := Trim(line[4..])), s)
    else if "MOVED " <= line then DecodeNode(line, "MOVED ", Moved, s)
    else if "OWNER " <= line then DecodeNode(line, "OWNER ", Owner, s)
    else if "MEMBERS " <= line then DecodeCount(Trim(line[8..]), s)
    else if "NOT_LEADER " <= line then DecodeNode(line, "NOT_LEADER ", NotLeader, s)
    else if "VAL " <= line then
      var value :- ReadBlock(Trim(line[4..]), s);
      Ok(Plain(Value).(value := value.0), value.1)
    else Err(UnknownLine)
  }

  function Decode(s: Bytes): Parsed<Response> {
    var line :- ReadLine(s);
    var resp :- DecodeHead(line.0, line.1);
    var end :- ReadEnd(resp.1);
    Ok(resp.0, end.1)
  }

  // Round trip

  predicate NodeTravels(id: string, addr: string) {
    id != "" && addr != "" && NoSpace(id) && NoSpace(addr)
  }

  /** A member line is cut at its first space and loses a carriage return. */
  predicate MemberTravels(m: Member) {
    && m.id != "" && ' ' !in m.id && '\n' !in m.id
    && m.addr != "" && '\n' !in m.addr && m.addr[|m.addr| - 1] != '\r'
  }

  /** A response of a known kind whose lengths fit 64 bits. */
  predicate Encodes(resp: Response) {
    !resp.kind.Other? && |resp.value| <= MAX_INT && |resp.members| <= MAX_INT
  }

  predicate Travels(resp: Response) {
    match resp.kind
    case Failure => '\n' !in resp.message
    case Members => forall m | m in resp.members :: MemberTravels(m)
    case Moved => NodeTravels(resp.nodeId, resp.addr)
    case Owner => NodeTravels(resp.nodeId, resp.addr)
    case NotLeader => NodeTravels(resp.nodeId, resp.addr)
    case _ => true
  }

  /** What survives the wire: the fields the kind uses, and a trimmed message that is never empty at first. */
  function Canonical(resp: Response): Response {
    match resp.kind
    case Value => Plain(Value).(value := resp.value)
    case Failure => Plain(Failure).(message := Trim(Message(resp)))
    case Members => Plain(Members).(members := resp.members)
    case Moved => Plain(Moved).(nodeId := resp.nodeId, addr := resp.addr)
    case Owner => Plain(Owner).(nodeId := resp.nodeId, addr := resp.addr)
    case NotLeader => Plain(NotLeader).(nodeId := resp.nodeId, addr := resp.addr)
    case _ => Plain(resp.kind)
  }

  lemma NodeLine(prefix: string, id: string, addr: string)
    requires NodeTravels(id, addr) && '\n' !in prefix
    ensures var line := prefix + (id + " " + addr);
      Chomp(line) == line && '\n' !in line && Fields(line[|prefix|..]) == [id, addr]
  {
    FieldsOfTwo(id, addr);
    hide Fields;
    var line := prefix + (id + " " + addr);
    assert line[|prefix|..] == id + " " + addr;
    assert line[|line| - 1] == addr[|addr| - 1] && addr[|addr| - 1] in addr;
  }

  lemma NumberLine(prefix: string, n: nat)
    requires '\n' !in prefix
    ensures var line := prefix + Decimal(n);
      Chomp(line) == line && '\n' !in line && Trim(line[|prefix|..]) == Decimal(n)
  {
    DecimalTidy(n);
    TrimTidy(Decimal(n));
    var line := prefix + Decimal(n);
    assert line[|prefix|..] == Decimal(n);
    assert line[|line| - 1] == Decimal(n)[|Decimal(n)| - 1];
  }

  lemma MemberLine(m: Member, rest: Bytes)
    requires MemberTravels(m)
    ensures var line := m.id + " " + m.addr;
      ReadLine(Line(line) + rest) == Ok(line, rest) && Cut(line) == (m.id, m.addr, true)
  {
    var line := m.id + " " + m.addr;
    assert line[|line| - 1] == m.addr[|m.addr| - 1];
    ReadLineOf(line, rest);
    CutAt(m.id, m.addr);
  }

  lemma MemberLinesCons(members: seq<Member>, tail: Bytes)
    requires members != []
    ensures MemberLines(members) + tail
         == Line(members[0].id + " " + members[0].addr) + (MemberLines(members[1..]) + tail)
  {
    hide Line;
  }

  lemma {:induction false} DecodeMembersOf(members: seq<Member>, tail: Bytes)
    requires forall m | m in members :: MemberTravels(m)
    ensures DecodeMembers(|members|, MemberLines(members) + tail) == Ok(members, tail)
  {
    if members == [] {
      assert MemberLines(members) + tail == tail;
    } else {
      hide MemberLines, DecodeMembers, ReadLine, Cut, Line;
      var m := members[0];
      assert m in members && MemberTravels(m) && m.id != "" && m.addr != "";
      hide MemberTravels;
      var rest := MemberLines(members[1..]) + tail;
      DecodeMembersOf(members[1..], tail);
      MemberLine(m, rest);
      MemberLinesCons(members, tail);
      DecodeMembersStep(MemberLines(members) + tail, members, rest, tail);
    }
  }

  lemma DecodeMembersStep(s: Bytes, members: seq<Member>, mid: Bytes, rest: Bytes)
    requires members != [] && DecodeMembers(|members| - 1, mid) == Ok(members[1..], rest)
    requires var m := members[0];
      && m.id != "" && m.addr != ""
      && ReadLine(s) == Ok(m.id + " " + m.addr, mid) && Cut(m.id + " " + m.addr) == (m.id, m.addr, true)
    ensures DecodeMembers(|members|, s) == Ok(members, rest)
  {
    hide ReadLine, Cut;
    assert members == [members[0]] + members[1..];
  }

  lemma DecodeHeadPlain(resp: Response, s: Bytes)
    requires resp.kind == OK || resp.kind == NotFound
    ensures Chomp(Head(resp)) == Head(resp) && DecodeHead(Head(resp), s) == Ok(Canonical(resp), s)
  {
  }

  lemma FailureHead(message: string, s: Bytes)
    ensures DecodeHead(Chomp("ERR " + message), s) == Ok(Plain(Failure).(message := Trim(message)), s)
  {
    TrimAfter("ERR ", message);
    var line := Chomp("ERR " + message);
    assert line[0] == 'E';
  }

  lemma DecodeHeadFailure(resp: Response, s: Bytes)
    requires resp.kind == Failure
    ensures DecodeHead(Chomp(Head(resp)), s) == Ok(Canonical(resp), s)
  {
    FailureHead(Message(resp), s);
  }

  lemma NodeHead(line: string, prefix: string, kind: Kind, id: string, addr: string, s: Bytes)
    requires (prefix, kind) in [("MOVED ", Moved), ("OWNER ", Owner), ("NOT_LEADER ", NotLeader)]
    requires prefix <= line && Fields(line[|prefix|..]) == [id, addr]
    ensures DecodeHead(line, s) == Ok(Plain(kind).(nodeId := id, addr := addr), s)
  {
    hide Fields, DecodeCount, ReadBlock, Trim, DecodeHead;
    DecodeHeadByLetters(line, s);
  }

  /** Two letters tell the lines apart. */
  lemma DecodeHeadByLetters(line: string, s: Bytes)
    requires |line| > 2
    ensures "MOVED " <= line ==> DecodeHead(line, s) == DecodeNode(line, "MOVED ", Moved, s)
    ensures "OWNER " <= line ==> DecodeHead(line, s) == DecodeNode(line, "OWNER ", Owner, s)
    ensures "NOT_LEADER " <= line ==> DecodeHead(line, s) == DecodeNode(line, "NOT_LEADER ", NotLeader, s)
    ensures "MEMBERS " <= line ==> DecodeHead(line, s) == DecodeCount(Trim(line[8..]), s)
  {
    hide Fields, DecodeCount, ReadBlock, Trim, DecodeNode;
    assert line == [line[0], line[1]] + line[2..];
  }

  lemma DecodeHeadNode(resp: Response, s: Bytes)
    requires (resp.kind == Moved || resp.kind == Owner || resp.kind == NotLeader) && NodeTravels(resp.nodeId, resp.addr)
    ensures Chomp(Head(resp)) == Head(resp) && '\n' !in Head(resp)
    ensures DecodeHead(Head(resp), s) == Ok(Canonical(resp), s)
  {
    hide Fields, NodeTravels, Chomp;
    var line := Head(resp);
    match resp.kind
    case Moved => NodeLine("MOVED ", resp.nodeId, resp.addr);
      NodeHead(line, "MOVED ", Moved, resp.nodeId, resp.addr, s);
    case Owner => NodeLine("OWNER ", resp.nodeId, resp.addr);
      NodeHead(line, "OWNER ", Owner, resp.nodeId, resp.addr, s);
    case NotLeader =>
      NodeLine("NOT_LEADER ", resp.nodeId, resp.addr);
      NodeHead(line, "NOT_LEADER ", NotLeader, resp.nodeId, resp.addr, s);
  }

  lemma DecodeHeadValue(resp: Response, tail: Bytes)
    requires resp.kind == Value && |resp.value| <= MAX_INT
    ensures Chomp(Head(resp)) == Head(resp) && '\n' !in Head(resp)
    ensures DecodeHead(Head(resp), Middle(resp) + tail) == Ok(Canonical(resp), tail)
  {
    NumberLine("VAL ", |resp.value|);
    ReadBlockOf(resp.value, tail);
    ValueHead(Head(resp), Block(resp.value) + tail);
    hide DecodeHead, Trim, Chomp, Decimal, ReadBlock, Block;
  }

  lemma ValueHead(line: string, s: Bytes)
    requires "VAL " <= line
    ensures DecodeHead(line, s) == match ReadBlock(Trim(line[4..]), s)
      case Ok(value, rest) => Ok(Plain(Value).(value := value), rest)
      case Err(error) => Err(error)
  {
    hide Fields, DecodeCount, ReadBlock, Trim, DecodeNode;
    assert line[0] == 'V';
  }

  lemma DecodeHeadMembers(resp: Response, tail: Bytes)
    requires resp.kind == Members && Encodes(resp) && Travels(resp)
    ensures Chomp(Head(resp)) == Head(resp) && '\n' !in Head(resp)
    ensures DecodeHead(Head(resp), Middle(resp) + tail) == Ok(Canonical(resp), tail)
  {
    NumberLine("MEMBERS ", |resp.members|);
    ParseDecimal(|resp.members|);
    DecodeMembersOf(resp.members, tail);
    DecodeHeadByLetters(Head(resp), Middle(resp) + tail);
    hide DecodeMembers, MemberLines, Decimal, ParseInt, Trim, Chomp;
  }

  lemma DecodeHeadOf(resp: Response, tail: Bytes)
    requires Encodes(resp) && Travels(resp)
    ensures '\n' !in Head(resp) && DecodeHead(Chomp(Head(resp)), Middle(resp) + tail) == Ok(Canonical(resp), tail)
  {
    match resp.kind
    case OK => DecodeHeadPlain(resp, tail); assert "" + tail == tail;
    case NotFound => DecodeHeadPlain(resp, tail); assert "" + tail == tail;
    case Failure => DecodeHeadFailure(resp, tail); assert "" + tail == tail;
    case Value => DecodeHeadValue(resp, tail);
    case Members => DecodeHeadMembers(resp, tail);
    case Moved => DecodeHeadNode(resp, tail); assert "" + tail == tail;
    case Owner => DecodeHeadNode(resp, tail); assert "" + tail == tail;
    case NotLeader => DecodeHeadNode(resp, tail); assert "" + tail == tail;
  }

  lemma Arrives(resp: Response, tail: Bytes)
    requires Encodes(resp) && Travels(resp)
    ensures Decode(Frame(resp) + tail) == Ok(Canonical(resp), tail)
  {
    hide Head, Middle, DecodeHead, Line, ReadLine, ReadEnd;
    var rest := Middle(resp) + (Line("END") + tail);
    DecodeHeadOf(resp, Line("END") + tail);
    ReadLineOf(Head(resp), rest);
    ReadEndOf(tail);
    assert Frame(resp) + tail == Line(Head(resp)) + rest;
  }

  // What does not travel

  /** A message of several lines is cut after the first, which is not followed by the end of the frame. */
  lemma BrokenMessage(resp: Response, tail: Bytes)
    requires resp.kind == Failure && !Travels(resp)
    ensures var got := Decode(Frame(resp) + tail); got.Err? || got.value != Canonical(resp)
  {
    hide DecodeHead, Line, ReadLine, ReadEnd, Trim, Chomp, Find, AllSpace;
    var m, more := resp.message, Line("END") + tail;
    TrimmedToFirstLine(m);
    var i := Find(m, '\n');
    LineBreaks("ERR ", m, i, more);
    FindFirst(m, '\n');
    ReadLineOf("ERR " + m[..i], Line(m[i + 1..]) + more);
    assert Frame(resp) + tail == Line("ERR " + m) + more;
    FailureHead(m[..i], Line(m[i + 1..]) + more);
    if Trim(m[..i]) == Trim(m) { BlankIsNoEnd(m[i + 1..], more); }
  }

  lemma NodesAreWords(line: string, prefix: string, kind: Kind, s: Bytes)
    requires prefix <= line
    ensures var got := DecodeNode(line, prefix, kind, s); got.Ok? ==> NodeTravels(got.value.nodeId, got.value.addr)
  {
    hide Fields;
    var parts := Fields(line[|prefix|..]);
    FieldsAreWords(line[|prefix|..]);
    if |parts| == 2 { assert parts[0] in parts && parts[1] in parts; }
  }

  /** Only words are ever read as a node and its address. */
  lemma BrokenNode(resp: Response, tail: Bytes)
    requires (resp.kind == Moved || resp.kind == Owner || resp.kind == NotLeader) && !Travels(resp)
    ensures var got := Decode(Frame(resp) + tail); got.Err? || got.value != Canonical(resp)
  {
    hide DecodeHead, Line, ReadLine, ReadEnd, NodeTravels, Frame;
    var x, more := resp.nodeId + " " + resp.addr, Line("END") + tail;
    NodeFrame(resp, tail);
    match resp.kind
    case Moved => NodeRead("MOVED ", Moved, x, more);
    case Owner => NodeRead("OWNER ", Owner, x, more);
    case NotLeader => NodeRead("NOT_LEADER ", NotLeader, x, more);
  }

  lemma NodeFrame(resp: Response, tail: Bytes)
    requires resp.kind == Moved || resp.kind == Owner || resp.kind == NotLeader
    ensures Frame(resp) + tail == Line(Head(resp)) + (Line("END") + tail)
  {
    hide Line;
    assert "" + Line("END") == Line("END");
  }

  lemma NodeRead(prefix: string, kind: Kind, x: string, more: Bytes)
    requires (prefix, kind) in [("MOVED ", Moved), ("OWNER ", Owner), ("NOT_LEADER ", NotLeader)]
    ensures var got := Decode(Line(prefix + x) + more); got.Ok? ==> NodeTravels(got.value.nodeId, got.value.addr)
  {
    hide DecodeHead, Line, ReadLine, ReadEnd, DecodeNode, NodeTravels;
    ReadPrefix(prefix, x, more);
    var read := ReadLine(Line(prefix + x) + more);
    DecodeHeadByLetters(read.value, read.rest);
    NodesAreWords(read.value, prefix, kind, read.rest);
  }

  /** A member line that is read back as it was is one that travels, and leaves the lines after it. */
  lemma MemberReadBack(m: Member, rest: Bytes)
    requires var got := ReadLine(Line(m.id + " " + m.addr) + rest); got.Ok? && Cut(got.value) == (m.id, m.addr, true)
    requires m.id != "" && m.addr != ""
    ensures MemberTravels(m) && ReadLine(Line(m.id + " " + m.addr) + rest).rest == rest
  {
    var x := m.id + " " + m.addr;
    var line := ReadLine(Line(x) + rest).value;
    LinesAreSingle(Line(x) + rest);
    CutParts(line);
    hide Cut, ReadLine, Line;
    forall c | c in m.id || c in m.addr ensures c in line {}
    assert line == x;
    assert '\n' !in x;
    ReadLineOf(x, rest);
    assert x[|x| - 1] == m.addr[|m.addr| - 1];
  }

  lemma {:induction false} MembersReadBack(members: seq<Member>, tail: Bytes)
    requires var got := DecodeMembers(|members|, MemberLines(members) + tail); got.Ok? && got.value == members
    ensures forall m | m in members :: MemberTravels(m)
  {
    if members != [] {
      var m, rest := members[0], MemberLines(members[1..]) + tail;
      MemberLinesCons(members, tail);
      FirstMember(|members|, MemberLines(members) + tail, members);
      hide MemberTravels, DecodeMembers, MemberLines, ReadLine, Line, Cut;
      MemberReadBack(m, rest);
      MembersReadBack(members[1..], tail);
      assert members == [m] + members[1..];
    }
  }

  lemma FirstMember(n: nat, s: Bytes, members: seq<Member>)
    requires n == |members| > 0 && DecodeMembers(n, s).Ok? && DecodeMembers(n, s).value == members
    ensures var m, got := members[0], ReadLine(s);
      && m.id != "" && m.addr != "" && got.Ok? && Cut(got.value) == (m.id, m.addr, true)
      && DecodeMembers(n - 1, got.rest).Ok? && DecodeMembers(n - 1, got.rest).value == members[1..]
  {
    hide ReadLine, Cut;
    var others := DecodeMembers(n - 1, ReadLine(s).rest);
    assert members[1..] == others.value;
  }

  lemma BrokenMember(resp: Response, tail: Bytes)
    requires resp.kind == Members && Encodes(resp) && !Travels(resp)
    ensures var got := Decode(Frame(resp) + tail); got.Err? || got.value != Canonical(resp)
  {
    hide DecodeHead, Line, ReadLine, ReadEnd, DecodeMembers, MemberLines, MemberTravels, Decimal, ParseInt, Trim, Chomp;
    var n, more := |resp.members|, Line("END") + tail;
    var rest := MemberLines(resp.members) + more;
    NumberLine("MEMBERS ", n);
    ParseDecimal(n);
    assert Frame(resp) + tail == Line("MEMBERS " + Decimal(n)) + rest;
    ReadLineOf("MEMBERS " + Decimal(n), rest);
    DecodeHeadByLetters("MEMBERS " + Decimal(n), rest);
    var got := DecodeMembers(n, rest);
    if got.Ok? && got.value == resp.members { MembersReadBack(resp.members, more); }
  }

  /** Decoding an encoded response gives its canonical form, and leaves exactly what follows the frame, if
      and only if its message is one line, its node and address are words, or its members are fit for
      their lines. */
  lemma ResponseRoundTrip(resp: Response, tail: Bytes)
    requires Encodes(resp)
    ensures var got := Decode(Frame(resp) + tail);
      if Travels(resp) then got == Ok(Canonical(resp), tail) else got.Err? || got.value != Canonical(resp)
  {
    hide Decode, Frame, Canonical;
    if Travels(resp) {
      Arrives(resp, tail);
    } else {
      match resp.kind
      case Failure => BrokenMessage(resp, tail);
      case Members => BrokenMember(resp, tail);
      case Moved => BrokenNode(resp, tail);
      case Owner => BrokenNode(resp, tail);
      case NotLeader => BrokenNode(resp, tail);
    }
  }

  function Frames(resps: seq<Response>): seq<Bytes>
    requires forall resp | resp in resps :: Encodes(resp)
  {
    seq(|resps|, i requires 0 <= i < |resps| => assert Encodes(resps[i]); Frame(resps[i]))
  }

  function Canonicals(resps: seq<Response>): seq<Response> {
    seq(|resps|, i requires 0 <= i < |resps| => Canonical(resps[i]))
  }

  lemma ReadsIff(resp: Response)
    requires Encodes(resp)
    ensures if Travels(resp) then Reads(Decode, Frame(resp), Canonical(resp))
            else Misreads(Decode, Frame(resp), Canonical(resp))
    ensures Reads(Decode, Frame(resp), Canonical(resp)) ==> Travels(resp)
  {
    hide Decode, Frame, Canonical, Travels;
    forall tail ensures var got := Decode(Frame(resp) + tail);
      if Travels(resp) then got == Ok(Canonical(resp), tail) else got.Err? || got.value != Canonical(resp)
    {
      ResponseRoundTrip(resp, tail);
    }
    if Reads(Decode, Frame(resp), Canonical(resp)) { assert Decode(Frame(resp) + "") == Ok(Canonical(resp), ""); }
  }

  /** A connection carries a list of responses, all of them, in order and with every byte consumed, if and
      only if each of them travels. */
  lemma ResponseStreamRoundTrip(resps: seq<Response>, tail: Bytes)
    requires forall resp | resp in resps :: Encodes(resp)
    ensures DecodeMany(Decode, Concat(Frames(resps)) + tail, |resps|) == Ok(Canonicals(resps), tail)
       <==> forall resp | resp in resps :: Travels(resp)
  {
    hide Decode, Frame, Canonical, Travels, Reads, Misreads;
    var frames, values := Frames(resps), Canonicals(resps);
    forall i | 0 <= i < |resps|
      ensures Reads(Decode, frames[i], values[i]) <==> Travels(resps[i])
      ensures Reads(Decode, frames[i], values[i]) || Misreads(Decode, frames[i], values[i])
    {
      ReadsIff(resps[i]);
    }
    StreamRoundTrip(Decode, frames, values, tail);
  }
}
