/** Messages on the wire: the writer in a3/a2/net.h, the header in a3/a2/protocol.cpp, and ProcessMessages in
    a3/a2/main.cpp. */
module Messages {
  import opened Bytes
  import opened DataStream

  const HEADER_SIZE: nat := 24
  const COMMAND_SIZE: nat := 12
  const MESSAGE_SIZE_OFFSET: nat := 16
  const CHECKSUM_OFFSET: nat := 20
  const MAX_SIZE: nat := 0x200_0000

  /** The four bytes that start a message, and the first four bytes of the hash of its data. */
  datatype Net = Net(magic: seq<byte>, checksum: seq<byte> -> seq<byte>)

  ghost predicate NetOk(net: Net) {
    |net.magic| == 4 && forall d :: |net.checksum(d)| == 4
  }

  datatype Message = Message(command: seq<byte>, data: seq<byte>)

  // ----- the header -----

  /** strncpy: cut off or filled up with zeros to twelve bytes. */
  function CommandField(command: seq<byte>): (f: seq<byte>)
    ensures |f| == COMMAND_SIZE
  {
    if |command| >= COMMAND_SIZE then command[..COMMAND_SIZE] else command + Zeros(COMMAND_SIZE - |command|)
  }

  function HeaderBytes(net: Net, field: seq<byte>, nMessageSize: nat, nChecksum: seq<byte>): seq<byte> {
    net.magic + field + LEn(nMessageSize, 4) + nChecksum
  }

  /** A message as it goes over the wire. */
  function Frame(net: Net, m: Message): seq<byte> {
    HeaderBytes(net, CommandField(m.command), |m.data|, net.checksum(m.data)) + m.data
  }

  function FirstZero(field: seq<byte>): (n: nat)
    ensures n <= |field| && (forall i :: 0 <= i < n ==> field[i] != 0) && (n < |field| ==> field[n] == 0)
  {
    if field == [] || field[0] == 0 then 0 else 1 + FirstZero(field[1..])
  }

  /** GetCommand. */
  function GetCommand(field: seq<byte>): seq<byte> { field[..FirstZero(field)] }

  /** Printable characters, and after the first zero nothing but zeros. */
  predicate CommandOk(field: seq<byte>) {
    && (forall i :: 0 <= i < FirstZero(field) ==> 0x20 <= field[i] <= 0x7e)
    && (forall i :: FirstZero(field) <= i < |field| ==> field[i] == 0)
  }

  /** CMessageHeader::IsValid of 24 bytes that start with the magic. */
  predicate HeaderOk(net: Net, h: seq<byte>)
    requires |h| == HEADER_SIZE
  {
    h[..4] == net.magic && CommandOk(h[4..16]) && Val(h[16..20]) <= MAX_SIZE
  }

  /** The check of the command string. */
  method CheckCommand(field: seq<byte>) returns (ok: bool)
    ensures ok == CommandOk(field)
  {
    var p1 := 0;
    while p1 < |field|
      invariant 0 <= p1 <= FirstZero(field) && forall i :: 0 <= i < p1 ==> 0x20 <= field[i] <= 0x7e
    {
      if field[p1] == 0 {
        assert p1 == FirstZero(field);
        while p1 < |field|
          invariant FirstZero(field) <= p1 <= |field| && forall i :: FirstZero(field) <= i < p1 ==> field[i] == 0
        {
          if field[p1] != 0 { return false; }
          p1 := p1 + 1;
        }
        return true;
      } else if field[p1] < 0x20 || field[p1] > 0x7e {
        return false;
      }
      p1 := p1 + 1;
    }
    return true;
  }

  // ----- the scan -----

  /** The first place, from i on, where the magic stands; the length of the bytes if there is none. */
  function Search(b: seq<byte>, magic: seq<byte>, i: nat): (p: nat)
    requires i <= |b|
    ensures i <= p <= |b|
    ensures p < |b| ==> magic <= b[p..]
    ensures forall j :: i <= j < p ==> !(magic <= b[j..])
    decreases |b| - i
  {
    if i == |b| then i else if magic <= b[i..] then i else Search(b, magic, i + 1)
  }

  datatype Scanned = Scanned(messages: seq<Message>, rest: seq<byte>)

  /** What one call of ProcessMessages dispatches from the received bytes, and what it leaves of them. */
  function Scan(net: Net, b: seq<byte>): Scanned
    decreases |b|, 1
  {
    var p := Search(b, net.magic, 0);
    if |b| - p < HEADER_SIZE then
      Scanned([], if |b| > HEADER_SIZE then b[|b| - HEADER_SIZE..] else b)
    else FromHeader(net, b[p..])
  }

  function OneMore(m: Message, r: Scanned): Scanned { r.(messages := [m] + r.messages) }

  /** The scan from a header on. */
  function FromHeader(net: Net, b: seq<byte>): Scanned
    requires |b| >= HEADER_SIZE
    decreases |b|, 0
  {
    var h, rest := b[..HEADER_SIZE], b[HEADER_SIZE..];
    var nSize := Val(h[16..20]);
    if !HeaderOk(net, h) then Scan(net, rest)
    else if nSize > |rest| then Scanned([], b)
    else if net.checksum(rest[..nSize]) != h[20..24] then Scan(net, rest)
    else OneMore(Message(GetCommand(h[4..16]), rest[..nSize]), Scan(net, rest[nSize..]))
  }

  /** The buffers of a peer, and the state of the message that is being written. */
  class CNode {
    const net: Net
    const vSend: CDataStream
    const vRecv: CDataStream
    var nHeaderStart: int
    var nMessageStart: int

    ghost predicate Valid()
      reads this, vSend, vRecv
    {
      && vSend != vRecv && vSend.Valid() && vRecv.Valid() && NetOk(net)
      && -1 <= nHeaderStart <= vSend.Size()
      && (nHeaderStart >= 0 ==> nMessageStart == nHeaderStart + HEADER_SIZE <= vSend.Size())
    }

    constructor (net: Net)
      requires NetOk(net)
      ensures Valid() && this.net == net && nHeaderStart == -1
      ensures vSend.Contents() == [] && vRecv.Contents() == [] && fresh(vSend) && fresh(vRecv)
    {
      this.net := net;
      vSend := new CDataStream([]);
      vRecv := new CDataStream([]);
      nHeaderStart, nMessageStart := -1, -1;
    }

    /** The bytes that are sure to be sent: without a message that is not finished. */
    ghost function Finished(): seq<byte>
      reads this, vSend
      requires vSend.Valid() && -1 <= nHeaderStart <= vSend.Size()
    {
      if nHeaderStart < 0 then vSend.Contents() else vSend.Contents()[..nHeaderStart]
    }

    /** AbortMessage. */
    method AbortMessage()
      requires Valid()
      modifies this, vSend
      ensures Valid() && nHeaderStart == -1 && vSend.Contents() == old(Finished())
    {
      if nHeaderStart < 0 { return; }
      vSend.Resize(nHeaderStart);
      nHeaderStart, nMessageStart := -1, -1;
    }

    /** BeginMessage: a header with neither size nor checksum. A message that was not finished is given up. */
    method BeginMessage(pszCommand: seq<byte>)
      requires Valid()
      modifies this, vSend
      ensures Valid() && nHeaderStart >= 0 && Finished() == old(Finished())
      ensures vSend.Contents() == old(Finished()) + HeaderBytes(net, CommandField(pszCommand), 0, Zeros(4))
    {
      if nHeaderStart != -1 { AbortMessage(); }
      nHeaderStart := vSend.Size();
      ghost var before := vSend.Contents();
      vSend.Write(HeaderBytes(net, CommandField(pszCommand), 0, Zeros(4)));
      nMessageStart := vSend.Size();
      assert vSend.Contents()[..nHeaderStart] == before;
    }

    /** What a message writes between BeginMessage and EndMessage. */
    method WriteData(data: seq<byte>)
      requires Valid() && nHeaderStart >= 0
      modifies vSend
      ensures Valid() && Finished() == old(Finished()) && vSend.Contents() == old(vSend.Contents()) + data
    {
      ghost var before := vSend.Contents();
      vSend.Write(data);
      assert (before + data)[..nHeaderStart] == before[..nHeaderStart];
    }

    /** EndMessage: fills in the size and the checksum of what was written since BeginMessage. Without a message that
        was begun it does nothing. */
    method EndMessage(ghost m: Message)
      requires Valid()
      requires nHeaderStart >= 0 ==>
        vSend.Contents() == Finished() + HeaderBytes(net, CommandField(m.command), 0, Zeros(4)) + m.data
      modifies this, vSend
      ensures Valid() && nHeaderStart == -1
      ensures vSend.Contents() == if old(nHeaderStart) < 0 then old(vSend.Contents())
          else old(Finished()) + Frame(net, m)
    {
      hide LEn, CommandField;
      if nHeaderStart < 0 { return; }
      ghost var done, field := Finished(), CommandField(m.command);
      var c := vSend.Contents();
      var nSize := |c| - nMessageStart;
      assert c[nMessageStart..] == m.data;
      var nChecksum := net.checksum(c[nMessageStart..]);
      vSend.Patch(nHeaderStart + MESSAGE_SIZE_OFFSET, LEn(nSize, 4));
      vSend.Patch(nHeaderStart + CHECKSUM_OFFSET, nChecksum);
      Patched(net, done, field, m.data, LEn(0, 4), LEn(nSize, 4), nChecksum);
      nHeaderStart, nMessageStart := -1, -1;
    }

    /** PushMessage. */
    method PushMessage(pszCommand: seq<byte>, data: seq<byte>)
      requires Valid()
      modifies this, vSend
      ensures Valid() && nHeaderStart == -1
      ensures vSend.Contents() == old(Finished()) + Frame(net, Message(pszCommand, data))
    {
      BeginMessage(pszCommand);
      WriteData(data);
      EndMessage(Message(pszCommand, data));
    }

    /** Receiving bytes: they are appended to vRecv. */
    method Receive(chunk: seq<byte>)
      requires Valid()
      modifies vRecv
      ensures Valid() && vRecv.Contents() == old(vRecv.Contents()) + chunk
    {
      ghost var before := vRecv.Contents();
      var nPos := vRecv.Size();
      vRecv.Resize(nPos + |chunk|);
      vRecv.Patch(nPos, chunk);
      assert (before + Zeros(|chunk|))[..nPos] == before;
    }

    /** ProcessMessages, while the send buffer has room and the node is not shutting down. The second test of the size
        cannot fail after IsValid. `dispatched` is what ProcessMessage is called with. */
    method ProcessMessages() returns (dispatched: seq<Message>)
      requires Valid()
      modifies vRecv
      ensures Valid()
      ensures Scanned(dispatched, vRecv.Contents()) == Scan(net, old(vRecv.Contents()))
    {
      hide HeaderOk, CommandOk, Val, Scan, GetCommand, FromHeader, After, OneMore, Search;
      dispatched := [];
      ghost var all := vRecv.Contents();
      var more := vRecv.Size() > 0;
      NothingAfter(Scan(net, all));
      if !more { ScanShort(net, all); return; }
      while more
        invariant Valid()
        invariant if more then Scan(net, all) == After(dispatched, Scan(net, vRecv.Contents()))
                  else Scan(net, all) == Scanned(dispatched, vRecv.Contents())
        decreases more, vRecv.Size()
      {
        var b := vRecv.Contents();
        var pstart := Search(b, net.magic, 0);
        if |b| - pstart < HEADER_SIZE {
          ScanShort(net, b);
          AfterNone(dispatched, Scan(net, b));
          if vRecv.Size() > HEADER_SIZE { vRecv.EraseFront(vRecv.Size() - HEADER_SIZE); }
          more := false;
        } else {
          vRecv.EraseFront(pstart);
          ScanHeader(net, b, pstart);
          var m;
          more, m := ProcessHeader(b[pstart..]);
          if |m| == 1 { AfterOne(dispatched, m[0], Scan(net, vRecv.Contents())); } else { AfterNone(dispatched,
              Scan(net, b)); }
          assert !more ==> Scan(net, b) == Scanned([], vRecv.Contents());
          assert more && m == [] ==> Scan(net, b) == Scan(net, vRecv.Contents());
          ghost var before := dispatched;
          dispatched := dispatched + m;
          assert m == [] ==> dispatched == before;
          assert |m| == 1 ==> dispatched == before + [m[0]];
        }
      }
      vRecv.Compact();
    }

    /** The loop of ProcessMessages from the header on. */
    method ProcessHeader(ghost b: seq<byte>) returns (more: bool, m: seq<Message>)
      requires Valid() && b == vRecv.Contents() && |b| >= HEADER_SIZE && net.magic <= b
      modifies vRecv
      ensures Valid() && (more ==> vRecv.Size() < |b|)
      ensures !more ==> m == [] && FromHeader(net, b) == Scanned([], vRecv.Contents())
      ensures more && m == [] ==> FromHeader(net, b) == Scan(net, vRecv.Contents())
      ensures more && m != [] ==> |m| == 1 && FromHeader(net, b) == OneMore(m[0], Scan(net, vRecv.Contents()))
    {
      hide CommandOk, Val, Scan, GetCommand;
      m := [];
      var vHeaderSave := vRecv.Contents()[..HEADER_SIZE];
      var ok, h := vRecv.Read(HEADER_SIZE);
      ghost var rest := b[HEADER_SIZE..];
      assert h[..4] == net.magic;
      var fCommand := CheckCommand(h[4..16]);
      var nMessageSize := Val(h[16..20]);
      if !(fCommand && nMessageSize <= MAX_SIZE) { return true, m; }
      if nMessageSize > vRecv.Size() {
        vRecv.InsertFront(vHeaderSave);
        assert vHeaderSave + rest == b;
        return false, m;
      }
      var nChecksum := net.checksum(vRecv.Contents()[..nMessageSize]);
      if nChecksum != h[20..24] { return true, m; }
      var vMsg := vRecv.Contents()[..nMessageSize];
      var ignored := vRecv.Ignore(nMessageSize);
      return true, [Message(GetCommand(h[4..16]), vMsg)];
    }
  }

  lemma ScanHeader(net: Net, b: seq<byte>, p: nat)
    requires p == Search(b, net.magic, 0) && |b| - p >= HEADER_SIZE
    ensures Scan(net, b) == FromHeader(net, b[p..]) && net.magic <= b[p..]
  {
    hide FromHeader;
  }

  lemma ScanShort(net: Net, b: seq<byte>)
    requires |b| - Search(b, net.magic, 0) < HEADER_SIZE
    ensures Scan(net, b) == Scanned([], if |b| > HEADER_SIZE then b[|b| - HEADER_SIZE..] else b)
  {
  }

  lemma AfterNone(front: seq<Message>, r: Scanned)
    ensures front + [] == front && (r.messages == [] ==> After(front, r) == Scanned(front, r.rest))
  {
  }

  lemma NothingAfter(r: Scanned)
    ensures After([], r) == r
  {
    assert [] + r.messages == r.messages;
  }

  /** The result of a scan with messages in front. */
  function After(front: seq<Message>, r: Scanned): Scanned { r.(messages := front + r.messages) }

  lemma AfterOne(front: seq<Message>, m: Message, r: Scanned)
    ensures After(front, OneMore(m, r)) == After(front + [m], r)
  {
    assert front + ([m] + r.messages) == front + [m] + r.messages;
  }

  /** Filling in two fields of a header. */
  lemma Patched(net: Net, done: seq<byte>, field: seq<byte>, data: seq<byte>, size0: seq<byte>, size: seq<byte>,
      checksum: seq<byte>)
    requires |net.magic| == 4 && |field| == COMMAND_SIZE && |size0| == |size| == 4 && |checksum| == 4
    ensures var c := done + (net.magic + field + size0 + Zeros(4)) + data;
      var at := |done| + MESSAGE_SIZE_OFFSET;
      var c1 := c[..at] + size + c[at + 4..];
      c1[..at + 4] + checksum + c1[at + 8..] == done + (net.magic + field + size + checksum + data)
  {
  }
}
