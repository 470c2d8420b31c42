/** CDataStream (a3/a2/serialize.h): a byte buffer that is read from the front without moving its bytes, and compacted
    now and then. */
module DataStream {
  import opened Bytes

  class CDataStream {
    var vch: seq<byte>
    var nReadPos: nat

    ghost predicate Valid()
      reads this
    {
      nReadPos <= |vch|
    }

    /** The bytes from begin() to end(). */
    function Contents(): seq<byte>
      reads this
      requires Valid()
    {
      vch[nReadPos..]
    }

    constructor (bytes: seq<byte>)
      ensures Valid() && Contents() == bytes
    {
      vch, nReadPos := bytes, 0;
    }

    function Size(): nat
      reads this
      requires Valid()
    {
      |vch| - nReadPos
    }

    /** resize. */
    method Resize(n: nat)
      requires Valid()
      modifies this
      ensures Valid()
      ensures Contents() == if n <= old(Size()) then old(Contents())[..n] else old(Contents()) + Zeros(n - old(Size()))
    {
      var m := n + nReadPos;
      if m <= |vch| {
        assert vch[..m][nReadPos..] == vch[nReadPos..][..n];
        vch := vch[..m];
      } else {
        assert (vch + Zeros(m - |vch|))[nReadPos..] == vch[nReadPos..] + Zeros(m - |vch|);
        vch := vch + Zeros(m - |vch|);
      }
    }

    /** memcpy to the address of an element. */
    method Patch(pos: nat, bytes: seq<byte>)
      requires Valid() && pos + |bytes| <= Size()
      modifies this
      ensures Valid() && Size() == old(Size())
      ensures Contents() == old(Contents())[..pos] + bytes + old(Contents())[pos + |bytes|..]
    {
      var at := pos + nReadPos;
      ghost var c := Contents();
      assert vch[nReadPos..at] == c[..pos] && vch[at + |bytes|..] == c[pos + |bytes|..];
      vch := vch[..at] + bytes + vch[at + |bytes|..];
    }

    /** insert at begin(): into the room before it if there is enough, and otherwise into the vector. */
    method InsertFront(bytes: seq<byte>)
      requires Valid()
      modifies this
      ensures Valid() && Contents() == bytes + old(Contents())
    {
      ghost var c := Contents();
      if |bytes| <= nReadPos {
        nReadPos := nReadPos - |bytes|;
        vch := vch[..nReadPos] + bytes + vch[nReadPos + |bytes|..];
        assert vch[nReadPos..] == bytes + c;
      } else {
        vch := vch[..nReadPos] + bytes + vch[nReadPos..];
        assert vch[nReadPos..] == bytes + c;
      }
    }

    /** erase from begin() on. When everything goes, the buffer is cleared. */
    method EraseFront(n: nat)
      requires Valid() && n <= Size()
      modifies this
      ensures Valid() && Contents() == old(Contents())[n..]
    {
      if n == |vch| - nReadPos {
        vch, nReadPos := [], 0;
      } else {
        nReadPos := nReadPos + n;
      }
    }

    method Compact()
      requires Valid()
      modifies this
      ensures Valid() && Contents() == old(Contents()) && nReadPos == 0
    {
      vch := vch[nReadPos..];
      nReadPos := 0;
    }

    /** read: throws, and reads nothing, when there are not enough bytes. The last byte clears the buffer. */
    method Read(nSize: nat) returns (ok: bool, data: seq<byte>)
      requires Valid()
      modifies this
      ensures Valid() && (ok <==> nSize <= old(Size()))
      ensures ok ==> data == old(Contents())[..nSize] && Contents() == old(Contents())[nSize..]
      ensures !ok ==> Contents() == old(Contents())
    {
      var nReadPosNext := nReadPos + nSize;
      if nReadPosNext >= |vch| {
        if nReadPosNext > |vch| { return false, []; }
        data := vch[nReadPos..nReadPosNext];
        vch, nReadPos := [], 0;
        return true, data;
      }
      data := vch[nReadPos..nReadPosNext];
      nReadPos := nReadPosNext;
      return true, data;
    }

    /** ignore. */
    method Ignore(nSize: nat) returns (ok: bool)
      requires Valid()
      modifies this
      ensures Valid() && (ok <==> nSize <= old(Size()))
      ensures Contents() == if ok then old(Contents())[nSize..] else old(Contents())
    {
      var nReadPosNext := nReadPos + nSize;
      if nReadPosNext >= |vch| {
        if nReadPosNext > |vch| { return false; }
        vch, nReadPos := [], 0;
        return true;
      }
      nReadPos := nReadPosNext;
      return true;
    }

    method Write(bytes: seq<byte>)
      requires Valid()
      modifies this
      ensures Valid() && Contents() == old(Contents()) + bytes && nReadPos == old(nReadPos)
    {
      assert (vch + bytes)[nReadPos..] == vch[nReadPos..] + bytes;
      vch := vch + bytes;
    }
  }
}
