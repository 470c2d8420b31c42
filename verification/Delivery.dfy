/** What was written is what is dispatched (a3/a2/net.h and ProcessMessages in a3/a2/main.cpp): however the bytes of
    messages are split on their way, the same messages come out, in order. */
module Delivery {
  import opened Bytes
  import opened DataStream
  import opened Messages

  /** A message that BeginMessage and EndMessage may write: printable characters in front, data of at most MAX_SIZE. */
  predicate MessageOk(m: Message) {
    |m.data| <= MAX_SIZE && forall i :: 0 <= i < |m.command| ==>
        m.command[i] != 0 && (i < COMMAND_SIZE ==> 0x20 <= m.command[i] <= 0x7e)
  }

  predicate AllOk(ms: seq<Message>) { forall i :: 0 <= i < |ms| ==> MessageOk(ms[i]) }

  /** A message as it arrives: the command is cut off at twelve characters. */
  function Arrived(m: Message): Message {
    m.(command := if |m.command| <= COMMAND_SIZE then m.command else m.command[..COMMAND_SIZE])
  }

  function AllArrived(ms: seq<Message>): (r: seq<Message>)
    ensures |r| == |ms| && forall i :: 0 <= i < |ms| ==> r[i] == Arrived(ms[i])
  {
    seq(|ms|, i requires 0 <= i < |ms| => Arrived(ms[i]))
  }

  function Frames(net: Net, ms: seq<Message>): seq<byte> {
    if ms == [] then [] else Frame(net, ms[0]) + Frames(net, ms[1..])
  }

  // ----- one frame -----

  lemma CommandArrives(m: Message)
    requires MessageOk(m)
    ensures CommandOk(CommandField(m.command)) && GetCommand(CommandField(m.command)) == Arrived(m).command
  {
    var f, n := CommandField(m.command), if |m.command| <= COMMAND_SIZE then |m.command| else COMMAND_SIZE;
    assert forall i :: 0 <= i < n ==> f[i] == m.command[i];
    assert n < COMMAND_SIZE ==> f[n] == 0;
    assert FirstZero(f) == n;
  }

  lemma PowOf4()
    ensures Pow256(4) == 0x1_0000_0000
  {
    assert Pow256(2) == 0x1_0000;
    assert Pow256(3) == 0x100_0000;
  }

  /** The parts of a frame, as the reader cuts them out. */
  lemma FrameParts(net: Net, m: Message, more: seq<byte>)
    requires NetOk(net) && MessageOk(m)
    ensures var b := Frame(net, m) + more;
      && |Frame(net, m)| == HEADER_SIZE + |m.data| && |b| >= HEADER_SIZE
      && b[..HEADER_SIZE][..4] == net.magic && b[..HEADER_SIZE][4..16] == CommandField(m.command)
      && b[..HEADER_SIZE][16..20] == LEn(|m.data|, 4) && b[..HEADER_SIZE][20..24] == net.checksum(m.data)
      && b[HEADER_SIZE..] == m.data + more && Val(LEn(|m.data|, 4)) == |m.data|
  {
    PowOf4();
    ValOfLEn(|m.data|, 4);
    hide LEn, CommandField, Val;
    var b := Frame(net, m) + more;
    var h := HeaderBytes(net, CommandField(m.command), |m.data|, net.checksum(m.data));
    assert |h| == HEADER_SIZE && b == h + (m.data + more);
    assert b[..HEADER_SIZE] == h && b[HEADER_SIZE..] == m.data + more;
    assert h[..4] == net.magic && h[4..16] == CommandField(m.command);
    assert h[16..20] == LEn(|m.data|, 4) && h[20..24] == net.checksum(m.data);
  }

  lemma FrameHeaderOk(net: Net, m: Message, h: seq<byte>)
    requires NetOk(net) && MessageOk(m) && h == Frame(net, m)[..HEADER_SIZE]
    ensures |h| == HEADER_SIZE && HeaderOk(net, h)
  {
    FrameParts(net, m, []);
    assert Frame(net, m) + [] == Frame(net, m);
    CommandArrives(m);
    hide CommandOk, CommandField, LEn, Frame, Val;
  }

  lemma SearchAtFront(b: seq<byte>, magic: seq<byte>)
    requires magic <= b && b != []
    ensures Search(b, magic, 0) == 0
  {
    assert b[0..] == b;
  }

  /** A whole frame in front is dispatched, and the scan goes on behind it. */
  lemma ScanFrame(net: Net, m: Message, more: seq<byte>)
    requires NetOk(net) && MessageOk(m)
    ensures Scan(net, Frame(net, m) + more) == OneMore(Arrived(m), Scan(net, more))
  {
    var f := Frame(net, m);
    var b := f + more;
    FrameParts(net, m, more);
    FrameHeaderOk(net, m, f[..HEADER_SIZE]);
    CommandArrives(m);
    hide HeaderOk, CommandField, CommandOk, GetCommand, LEn, Val, Scan, Frame;
    assert b[..HEADER_SIZE] == f[..HEADER_SIZE];
    assert net.magic <= b by { assert b[..4] == b[..HEADER_SIZE][..4]; }
    SearchAtFront(b, net.magic);
    ScanHeader(net, b, 0);
    assert b[0..] == b;
    assert (m.data + more)[..|m.data|] == m.data && (m.data + more)[|m.data|..] == more;
  }

  /** A part of a frame waits for the rest of it. */
  lemma ScanPartial(net: Net, m: Message, part: seq<byte>)
    requires NetOk(net) && MessageOk(m) && part < Frame(net, m)
    ensures Scan(net, part) == Scanned([], part)
  {
    var f := Frame(net, m);
    FrameParts(net, m, []);
    assert f + [] == f;
    if |part| < 4 {
      ScanShortPart(net, part);
    } else {
      assert net.magic <= part by { assert part[..4] == f[..4] == f[..HEADER_SIZE][..4]; }
      SearchAtFront(part, net.magic);
      if |part| < HEADER_SIZE {
        ScanShort(net, part);
      } else {
        FrameHeaderOk(net, m, f[..HEADER_SIZE]);
        hide HeaderOk, CommandField, CommandOk, GetCommand, LEn, Val, Scan, Frame;
        assert part[..HEADER_SIZE] == f[..HEADER_SIZE];
        ScanHeader(net, part, 0);
        assert part[0..] == part;
      }
    }
  }

  lemma ScanShortPart(net: Net, part: seq<byte>)
    requires NetOk(net) && |part| < 4
    ensures Scan(net, part) == Scanned([], part)
  {
    ScanShort(net, part);
  }

  // ----- many frames -----

  /** The bytes are the first k frames and a part, not the whole, of the next one. */
  predicate Cut(net: Net, ms: seq<Message>, b: seq<byte>, k: nat, part: seq<byte>) {
    && k <= |ms| && b == Frames(net, ms[..k]) + part
    && if k < |ms| then part < Frame(net, ms[k]) else part == []
  }

  /** Every beginning of the frames has such a form. */
  lemma {:induction false} CutPrefix(net: Net, ms: seq<Message>, b: seq<byte>) returns (k: nat, part: seq<byte>)
    requires b <= Frames(net, ms)
    ensures Cut(net, ms, b, k, part)
    decreases |ms|
  {
    hide Frame;
    if ms == [] {
      k, part := 0, [];
      assert ms[..0] == [];
    } else if |b| < |Frame(net, ms[0])| {
      k, part := 0, b;
      assert ms[..0] == [] && b == Frames(net, ms)[..|b|] == Frame(net, ms[0])[..|b|];
    } else {
      var f := Frame(net, ms[0]);
      var rest := b[|f|..];
      assert rest <= Frames(net, ms[1..]) by { assert Frames(net, ms)[|f|..] == Frames(net, ms[1..]); }
      var k', part' := CutPrefix(net, ms[1..], rest);
      k, part := k' + 1, part';
      assert b[..|f|] == Frames(net, ms)[..|f|] == f && b == f + rest;
      assert ms[..k][0] == ms[0] && ms[..k][1..] == ms[1..][..k'];
    }
  }

  /** What is dispatched of a beginning of the frames: the messages whose frames are complete. */
  lemma {:induction false} ScanFrames(net: Net, ms: seq<Message>, b: seq<byte>, k: nat, part: seq<byte>)
    requires NetOk(net) && AllOk(ms) && Cut(net, ms, b, k, part)
    ensures Scan(net, b) == Scanned(AllArrived(ms[..k]), part)
    decreases k
  {
    hide Frame, Scan, MessageOk;
    if k == 0 {
      assert ms[..0] == [] && b == part;
      if ms == [] { ScanShortPart(net, part); } else { ScanPartial(net, ms[0], part); }
    } else {
      var f, more := Frame(net, ms[0]), Frames(net, ms[1..][..k - 1]) + part;
      assert ms[..k][0] == ms[0] && ms[..k][1..] == ms[1..][..k - 1];
      assert b == f + more;
      ScanFrames(net, ms[1..], more, k - 1, part);
      ScanFrame(net, ms[0], more);
      assert AllArrived(ms[..k]) == [Arrived(ms[0])] + AllArrived(ms[1..][..k - 1]);
    }
  }

  function Joined(chunks: seq<seq<byte>>): seq<byte> {
    if chunks == [] then [] else chunks[0] + Joined(chunks[1..])
  }

  /** What is dispatched when the chunks arrive one after the other, with ProcessMessages called after each of them. */
  function Deliver(net: Net, b: seq<byte>, chunks: seq<seq<byte>>): Scanned
    decreases |chunks|
  {
    if chunks == [] then Scanned([], b)
    else
      var r := Scan(net, b + chunks[0]);
      After(r.messages, Deliver(net, r.rest, chunks[1..]))
  }

  /** With `part` of the first frame waiting, the chunks that follow bring the messages that they complete. */
  lemma {:induction false} DeliverFrom(net: Net, ms: seq<Message>, part: seq<byte>, chunks: seq<seq<byte>>)
    returns (k: nat, rest: seq<byte>)
    requires NetOk(net) && AllOk(ms) && Cut(net, ms, part, 0, part) && part + Joined(chunks) <= Frames(net, ms)
    ensures Cut(net, ms, part + Joined(chunks), k, rest)
    ensures Deliver(net, part, chunks) == Scanned(AllArrived(ms[..k]), rest)
    decreases |chunks|
  {
    hide Frame, Frames, Scan, MessageOk, NetOk, Cut;
    if chunks == [] {
      k, rest := 0, part;
      assert part + [] == part && AllArrived(ms[..0]) == [];
    } else {
      var b := part + chunks[0];
      assert part + Joined(chunks) == b + Joined(chunks[1..]);
      PrefixOfSum(b, Joined(chunks[1..]), Frames(net, ms));
      var j, part' := CutPrefix(net, ms, b);
      CutParts(net, ms, b, j, part');
      ScanFrames(net, ms, b, j, part');
      CutRest(net, ms, b, j, part', Joined(chunks[1..]));
      var k', rest' := DeliverFrom(net, ms[j..], part', chunks[1..]);
      k, rest := j + k', rest';
      CutJoin(net, ms, b, j, part', Joined(chunks[1..]), k', rest');
      assert AllArrived(ms[..k]) == AllArrived(ms[..j]) + AllArrived(ms[j..][..k']);
    }
  }

  lemma PrefixOfSum(a: seq<byte>, b: seq<byte>, c: seq<byte>)
    requires a + b <= c
    ensures a <= c
  {
    assert a == (a + b)[..|a|] == c[..|a|];
  }

  lemma CutParts(net: Net, ms: seq<Message>, b: seq<byte>, k: nat, part: seq<byte>)
    requires Cut(net, ms, b, k, part)
    ensures k <= |ms|
  {
  }

  /** A cut, and a cut of what is behind it, make one cut of the whole. */
  lemma CutJoin(net: Net, ms: seq<Message>, b: seq<byte>, j: nat, part: seq<byte>, more: seq<byte>, k: nat,
        rest: seq<byte>)
    requires Cut(net, ms, b, j, part) && Cut(net, ms[j..], part + more, k, rest)
    ensures Cut(net, ms, b + more, j + k, rest) && j + k <= |ms|
  {
    hide Frame, Frames;
    assert ms[..j + k] == ms[..j] + ms[j..][..k];
    FramesAppend(net, ms[..j], ms[j..][..k]);
    var front := Frames(net, ms[..j]);
    assert b + more == front + (part + more);
    assert front + (Frames(net, ms[j..][..k]) + rest) == front + Frames(net, ms[j..][..k]) + rest;
    if j + k < |ms| { assert ms[j..][k] == ms[j + k]; }
  }

  lemma {:induction false} FramesAppend(net: Net, a: seq<Message>, b: seq<Message>)
    ensures Frames(net, a + b) == Frames(net, a) + Frames(net, b)
  {
    hide Frame;
    if a == [] {
      assert a + b == b;
    } else {
      FramesAppend(net, a[1..], b);
      assert (a + b)[1..] == a[1..] + b;
    }
  }

  /** After the complete frames, the part that waits begins the frames that are left. */
  lemma CutRest(net: Net, ms: seq<Message>, b: seq<byte>, j: nat, part: seq<byte>, more: seq<byte>)
    requires Cut(net, ms, b, j, part) && b + more <= Frames(net, ms)
    ensures Cut(net, ms[j..], part, 0, part) && part + more <= Frames(net, ms[j..])
  {
    hide Frame, Frames;
    NoFrames(net);
    FramesAppend(net, ms[..j], ms[j..]);
    assert ms == ms[..j] + ms[j..];
    var front := Frames(net, ms[..j]);
    assert b + more == front + (part + more);
    assert (b + more)[|front|..] == part + more && Frames(net, ms)[|front|..] == Frames(net, ms[j..]);
    assert ms[j..][..0] == [] && [] + part == part;
    if j < |ms| { assert ms[j..][0] == ms[j]; }
  }

  /** However the bytes of the messages are cut into chunks: when the chunks so far hold the first k frames and a
      part of the next, exactly the first k messages were dispatched, in order, and the part is what waits in the
      buffer. */
  lemma AnySplitDelivers(net: Net, ms: seq<Message>, chunks: seq<seq<byte>>) returns (k: nat, rest: seq<byte>)
    requires NetOk(net) && AllOk(ms) && Joined(chunks) <= Frames(net, ms)
    ensures Cut(net, ms, Joined(chunks), k, rest)
    ensures Deliver(net, [], chunks) == Scanned(AllArrived(ms[..k]), rest)
  {
    hide Frame, NetOk, MessageOk;
    assert [] + Joined(chunks) == Joined(chunks) && ms[..0] == [];
    NothingIsPart(net, ms);
    k, rest := DeliverFrom(net, ms, [], chunks);
  }

  lemma NothingIsPart(net: Net, ms: seq<Message>)
    requires NetOk(net)
    ensures Cut(net, ms, [], 0, [])
  {
    assert ms[..0] == [];
  }

  /** When everything has arrived, every message was dispatched and nothing is left. */
  lemma AllDelivered(net: Net, ms: seq<Message>, chunks: seq<seq<byte>>)
    requires NetOk(net) && AllOk(ms) && Joined(chunks) == Frames(net, ms)
    ensures Deliver(net, [], chunks) == Scanned(AllArrived(ms), [])
  {
    hide Frame, NetOk, MessageOk, Deliver;
    var k, rest := AnySplitDelivers(net, ms, chunks);
    FirstFrame(net, ms, k);
    FramesAppend(net, ms[..k], ms[k..]);
    assert ms == ms[..k] + ms[k..];
    assert ms[..|ms|] == ms;
  }

  lemma FirstFrame(net: Net, ms: seq<Message>, k: nat)
    requires k <= |ms|
    ensures k < |ms| ==> |Frames(net, ms[k..])| >= |Frame(net, ms[k])|
  {
    hide Frame;
  }

  lemma NoFrames(net: Net)
    ensures Frames(net, []) == []
  {
  }

  // ----- two nodes -----

  lemma {:induction false} DeliverAppend(net: Net, b: seq<byte>, chunks: seq<seq<byte>>, c: seq<byte>)
    ensures var r := Deliver(net, b, chunks);
            Deliver(net, b, chunks + [c]) == After(r.messages, Scan(net, r.rest + c))
    decreases |chunks|
  {
    hide Scan;
    if chunks == [] {
      DeliverOne(net, b, c);
      assert [] + [c] == [c];
    } else {
      var r := Scan(net, b + chunks[0]);
      assert (chunks + [c])[1..] == chunks[1..] + [c];
      DeliverAppend(net, r.rest, chunks[1..], c);
    }
  }

  lemma DeliverOne(net: Net, b: seq<byte>, c: seq<byte>)
    ensures Deliver(net, b, [c]) == Scan(net, b + c) == After([], Scan(net, b + c))
  {
    hide Scan;
    assert Deliver(net, Scan(net, b + c).rest, []) == Scanned([], Scan(net, b + c).rest);
    assert [c][1..] == [];
  }

  lemma {:induction false} JoinedAppend(chunks: seq<seq<byte>>, c: seq<byte>)
    ensures Joined(chunks + [c]) == Joined(chunks) + c
  {
    if chunks == [] {
      assert [] + [c] == [c] && [c][1..] == [];
    } else {
      assert (chunks + [c])[1..] == chunks[1..] + [c];
      JoinedAppend(chunks[1..], c);
    }
  }

  /** What happens between two nodes: the sender pushes a message, or the socket carries at most n bytes over. */
  datatype Event = Push(m: Message) | Carry(n: nat)

  /** No command is longer than its field. */
  predicate Uncut(ms: seq<Message>) { forall i :: 0 <= i < |ms| ==> |ms[i].command| <= COMMAND_SIZE }

  function Pushed(events: seq<Event>): seq<Message> {
    if events == [] then []
    else
      var last := events[|events| - 1];
      Pushed(events[..|events| - 1]) + if last.Push? then [last.m] else []
  }

  lemma PushedNext(events: seq<Event>, i: nat)
    requires i < |events|
    ensures Pushed(events[..i + 1]) == Pushed(events[..i]) + if events[i].Push? then [events[i].m] else []
  {
    assert events[..i + 1][..i] == events[..i];
  }

  lemma FrameMore(net: Net, ms: seq<Message>, m: Message)
    ensures Frames(net, ms + [m]) == Frames(net, ms) + Frame(net, m)
  {
    hide Frame, Frames;
    FramesAppend(net, ms, [m]);
    OneFrame(net, m);
  }

  lemma OneFrame(net: Net, m: Message)
    ensures Frames(net, [m]) == Frame(net, m)
  {
    hide Frame;
    assert [m][1..] == [];
  }

  /** The socket takes at most n bytes out of the send buffer and brings them to the other node, which looks through
      what it has received. */
  method Transfer(sender: CNode, receiver: CNode, n: nat) returns (chunk: seq<byte>, dispatched: seq<Message>)
    requires sender != receiver && sender.Valid() && receiver.Valid()
    requires {sender.vSend, sender.vRecv} !! {receiver.vSend, receiver.vRecv}
    modifies sender.vSend, receiver.vRecv
    ensures sender.vSend.Valid() && receiver.Valid()
    ensures old(sender.vSend.Contents()) == chunk + sender.vSend.Contents()
    ensures |chunk| == if n < old(sender.vSend.Size()) then n else old(sender.vSend.Size())
    ensures Scanned(dispatched, receiver.vRecv.Contents()) == Scan(receiver.net, old(receiver.vRecv.Contents()) + chunk)
  {
    hide NetOk, Scan;
    var c := sender.vSend.Contents();
    var nBytes := if n < |c| then n else |c|;
    chunk := c[..nBytes];
    sender.vSend.EraseFront(nBytes);
    receiver.Receive(chunk);
    dispatched := receiver.ProcessMessages();
  }

  /** Pushes and transfers of any sizes, in any order. At every moment the receiver has dispatched exactly the messages
      whose frames have come over completely, in order, and the part of the next frame waits in its buffer; the rest of
      what was pushed is in the send buffer. When that is empty, every message pushed was dispatched. */
  method Exchange(sender: CNode, receiver: CNode, events: seq<Event>)
    returns (dispatched: seq<Message>, ghost sent: seq<byte>, ghost k: nat)
    requires sender != receiver && sender.Valid() && receiver.Valid() && sender.net == receiver.net
    requires {sender.vSend, sender.vRecv} !! {receiver.vSend, receiver.vRecv}
    requires sender.nHeaderStart == -1 && sender.vSend.Contents() == [] && receiver.vRecv.Contents() == []
    requires AllOk(Pushed(events))
    modifies sender, sender.vSend, receiver.vRecv
    ensures sender.Valid() && receiver.Valid() && sender.nHeaderStart == -1
    ensures sent + sender.vSend.Contents() == Frames(receiver.net, Pushed(events))
    ensures Cut(receiver.net, Pushed(events), sent, k, receiver.vRecv.Contents())
    ensures k <= |Pushed(events)| && dispatched == AllArrived(Pushed(events)[..k])
    ensures sender.vSend.Contents() == [] ==>
        dispatched == AllArrived(Pushed(events)) && receiver.vRecv.Contents() == []
    ensures sender.vSend.Contents() == [] && Uncut(Pushed(events)) ==> dispatched == Pushed(events)
  {
    hide NetOk, Scan, Deliver, Frames, Joined, MessageOk, Frame, Pushed, AllOk, AllArrived, Cut;
    ghost var chunks: seq<seq<byte>> := [];
    ghost var net := receiver.net;
    dispatched := [];
    NothingDelivered(net);
    assert events[..0] == [];
    for i := 0 to |events|
      invariant sender.Valid() && receiver.Valid() && sender.nHeaderStart == -1
      invariant Joined(chunks) + sender.vSend.Contents() == Frames(net, Pushed(events[..i]))
      invariant Deliver(net, [], chunks) == Scanned(dispatched, receiver.vRecv.Contents())
    {
      PushedNext(events, i);
      match events[i]
      case Push(m) =>
        FrameMore(net, Pushed(events[..i]), m);
        ghost var waiting := sender.vSend.Contents();
        sender.PushMessage(m.command, m.data);
        assert Joined(chunks) + (waiting + Frame(net, m)) == Joined(chunks) + waiting + Frame(net, m);
      case Carry(n) =>
        assert Pushed(events[..i]) + [] == Pushed(events[..i]);
        var chunk, some := Transfer(sender, receiver, n);
        JoinedAppend(chunks, chunk);
        DeliverAppend(net, [], chunks, chunk);
        assert Joined(chunks) + (chunk + sender.vSend.Contents()) == Joined(chunks + [chunk]) + sender.vSend.Contents();
        chunks := chunks + [chunk];
        dispatched := dispatched + some;
    }
    assert events[..|events|] == events;
    sent := Joined(chunks);
    ghost var ms, rest := Pushed(events), receiver.vRecv.Contents();
    k, rest := AnySplitDelivers(net, ms, chunks);
    CutParts(net, ms, sent, k, rest);
    if sender.vSend.Contents() == [] {
      AllDelivered(net, ms, chunks);
      if Uncut(ms) { ArriveUncut(ms); }
    }
  }

  lemma ArriveUncut(ms: seq<Message>)
    requires Uncut(ms)
    ensures AllArrived(ms) == ms
  {
    assert forall i :: 0 <= i < |ms| ==> AllArrived(ms)[i] == ms[i];
  }

  lemma NothingDelivered(net: Net)
    ensures Joined([]) == [] && Deliver(net, [], []) == Scanned([], []) && Frames(net, Pushed([])) == []
  {
  }
}
