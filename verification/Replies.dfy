/** The responses of the wire format kind by kind: the bytes of each, and what a decoder accepts at all. */
module Replies {
  import opened Decimals
  import opened Text
  import opened Wire
  import opened ResponseCodec
  import opened Commands

  /** How the first line of each kind starts. */
  function Opening(kind: Kind): string
    requires !kind.Other?
  {
    match kind
    case OK => "OK"
    case Value => "VAL "
    case NotFound => "NIL"
    case Failure => "ERR "
    case Moved => "MOVED "
    case Owner => "OWNER "
    case Members => "MEMBERS "
    case NotLeader => "NOT_LEADER "
  }

  /** What follows on the first line. */
  function Rest(resp: Response): string {
    match resp.kind
    case Value => Decimal(|resp.value|)
    case Failure => if resp.message == "" then "error" else resp.message
    case Members => Decimal(|resp.members|)
    case Moved => resp.nodeId + " " + resp.addr
    case Owner => resp.nodeId + " " + resp.addr
    case NotLeader => resp.nodeId + " " + resp.addr
    case _ => ""
  }

  lemma HeadText(resp: Response)
    requires !resp.kind.Other?
    ensures Head(resp) == Opening(resp.kind) + Rest(resp)
  {
    hide Decimal;
    match resp.kind
    case OK => assert "OK" + "" == "OK";
    case NotFound => assert "NIL" + "" == "NIL";
    case _ =>
  }

  /** The first line, then the bytes of a value or a line for each member, then the end. */
  lemma ReplyBytes(resp: Response)
    requires !resp.kind.Other?
    ensures resp.kind == Value ==>
      Frame(resp) == Opening(resp.kind) + Rest(resp) + "\n" + (resp.value + "\n" + "END\n")
    ensures resp.kind == Members ==>
      Frame(resp) == Opening(resp.kind) + Rest(resp) + "\n" + (MemberLines(resp.members) + "END\n")
    ensures resp.kind != Value && resp.kind != Members ==>
      Frame(resp) == Opening(resp.kind) + Rest(resp) + "\n" + "END\n"
  {
    HeadText(resp);
    hide Head, Opening, Rest, MemberLines;
    assert "END" + "\n" == "END\n" && "" + "END\n" == "END\n";
  }

  lemma HeadStarts(line: string, s: Bytes)
    ensures var got := DecodeHead(line, s);
      got.Ok? ==> !got.value.kind.Other? && Opening(got.value.kind) <= line
  {
    hide Trim, ReadBlock, DecodeMembers, Fields, ParseInt;
  }

  lemma {:induction false} MembersLeave(n: nat, s: Bytes)
    ensures var got := DecodeMembers(n, s); got.Ok? ==> Leaves(s, got.rest) && |got.value| == n
    decreases n
  {
    if n > 0 {
      LineLeaves(s);
      var line := ReadLine(s);
      if line.Ok? {
        MembersLeave(n - 1, line.rest);
        hide ReadLine, Cut, Leaves;
        var others := DecodeMembers(n - 1, line.rest);
        if others.Ok? { LeavesBoth(s, line.rest, others.rest); }
      }
    }
  }

  lemma HeadLeaves(line: string, s: Bytes)
    ensures var got := DecodeHead(line, s); got.Ok? ==> Leaves(s, got.rest)
  {
    if "VAL " <= line { BlockLeaves(Trim(line[4..]), s); }
    if "MEMBERS " <= line {
      var n := ParseInt(Trim(line[8..]));
      if n.Some? && n.value >= 0 { MembersLeave(n.value, s); }
    }
    LeavesAll(s);
    hide Trim, ReadBlock, DecodeMembers, Fields, ParseInt, Leaves;
  }

  lemma LeavesAll(s: Bytes)
    ensures Leaves(s, s)
  {
    assert s[0..] == s;
  }

  /** A node and its address are words, and a member has an id up to the first space and an address. */
  ghost predicate FieldsFit(resp: Response) {
    match resp.kind
    case Moved => NodeTravels(resp.nodeId, resp.addr)
    case Owner => NodeTravels(resp.nodeId, resp.addr)
    case NotLeader => NodeTravels(resp.nodeId, resp.addr)
    case Members => forall m | m in resp.members :: Fits(m)
    case _ => true
  }

  ghost predicate Fits(m: Member) {
    m.id != "" && m.addr != "" && ' ' !in m.id
  }

  lemma CutFits(line: string)
    ensures var (id, addr, ok) := Cut(line); id != "" && addr != "" ==> Fits(Member(id, addr))
  {
    CutParts(line);
  }

  lemma {:induction false} MembersFit(n: nat, s: Bytes)
    ensures var got := DecodeMembers(n, s);
      got.Ok? ==> forall m | m in got.value :: Fits(m)
    decreases n
  {
    hide ReadLine, Cut, Fits;
    if n > 0 {
      var line := ReadLine(s);
      if line.Ok? {
        MembersFit(n - 1, line.rest);
        CutFits(line.value);
      }
    }
  }

  lemma HeadFits(line: string, s: Bytes)
    ensures var got := DecodeHead(line, s); got.Ok? ==> FieldsFit(got.value)
  {
    if "MOVED " <= line { NodesAreWords(line, "MOVED ", Moved, s); }
    if "OWNER " <= line { NodesAreWords(line, "OWNER ", Owner, s); }
    if "NOT_LEADER " <= line { NodesAreWords(line, "NOT_LEADER ", NotLeader, s); }
    if "MEMBERS " <= line {
      var n := ParseInt(Trim(line[8..]));
      if n.Some? && n.value >= 0 { MembersFit(n.value, s); }
    }
    hide Trim, ReadBlock, DecodeMembers, Fields, ParseInt, NodeTravels;
  }

  /** A count that is no number or below zero is refused. */
  lemma BadCountRefused(text: string, s: Bytes)
    requires ParseInt(Trim(text)).None? || ParseInt(Trim(text)).value < 0
    ensures DecodeHead("MEMBERS " + text, s) == Err(BadCount)
  {
    hide ParseInt, Trim;
    DecodeHeadByLetters("MEMBERS " + text, s);
    assert ("MEMBERS " + text)[8..] == text;
  }

  /** A decoder accepts nothing but frames: they start as their kind does, end with the line `END` right before
      what is left, and have the fields of their kind. */
  lemma AcceptsOnlyReplies(s: Bytes)
    ensures var got := Decode(s);
      got.Ok? ==>
        && !got.value.kind.Other? && Opening(got.value.kind) <= s
        && EndedBefore(s, got.rest) && FieldsFit(got.value)
  {
    hide ReadLine, ReadEnd, DecodeHead, Leaves, EndedBefore, Opening, FieldsFit;
    LineLeaves(s);
    var line := ReadLine(s);
    if line.Ok? {
      LineStarts(s);
      HeadStarts(line.value, line.rest);
      HeadFits(line.value, line.rest);
      HeadLeaves(line.value, line.rest);
      var head := DecodeHead(line.value, line.rest);
      if head.Ok? {
        LeavesBoth(s, line.rest, head.rest);
        EndLeaves(s, head.rest);
        StartsToo(Opening(head.value.kind), line.value, s);
      }
    }
  }

  lemma StartsToo(a: string, b: string, s: string)
    requires a <= b <= s
    ensures a <= s
  {
  }
}
