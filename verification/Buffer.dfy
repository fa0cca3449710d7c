/** The byte queue of a connection: one array, of which the part between two indices is readable. */
module Buffer {
  import opened Bytes
  import opened Graph

  const CHEAP_PREPEND := 8
  const INITIAL_SIZE := 1024

  /** Where the first line ends, if it does. */
  function FirstCrlf(s: seq<byte>): (k: Option<nat>)
    ensures k.Some? ==> k.value + 2 <= |s| && s[k.value] == CR && s[k.value + 1] == LF
    ensures forall i :: 0 <= i && i + 2 <= |s| && s[i] == CR && s[i + 1] == LF ==> k.Some? && k.value <= i
  {
    if |s| < 2 then None
    else if s[0] == CR && s[1] == LF then Some(0)
    else
      assert forall i :: 1 <= i && i + 2 <= |s| ==> s[i] == s[1..][i - 1] && s[i + 1] == s[1..][i];
      match FirstCrlf(s[1..])
      case None => None
      case Some(k) => Some(k + 1)
  }

  class Buffer {
    var buf: array<byte>
    var readerIndex: nat
    var writerIndex: nat

    ghost predicate Valid()
      reads this
    {
      CHEAP_PREPEND <= readerIndex <= writerIndex <= buf.Length
    }

    ghost function Contents(): seq<byte>
      requires Valid()
      reads this, buf
    {
      buf[readerIndex..writerIndex]
    }

    constructor ()
      ensures Valid() && fresh(buf) && Contents() == [] && WritableBytes() == INITIAL_SIZE
    {
      buf := new byte[CHEAP_PREPEND + INITIAL_SIZE](_ => 0);
      readerIndex, writerIndex := CHEAP_PREPEND, CHEAP_PREPEND;
    }

    function ReadableBytes(): (n: nat)
      requires Valid()
      reads this, buf
      ensures n == |Contents()|
    {
      writerIndex - readerIndex
    }

    function WritableBytes(): nat
      requires Valid()
      reads this
    {
      buf.Length - writerIndex
    }

    /** Bytes that were put behind the readable ones become readable. */
    method HasWritten(len: nat)
      requires Valid() && len <= WritableBytes()
      modifies this`writerIndex
      ensures Valid() && Contents() == old(Contents()) + buf[old(writerIndex)..old(writerIndex) + len]
    {
      writerIndex := writerIndex + len;
    }

    method Append(data: seq<byte>)
      requires Valid() && |data| <= WritableBytes()
      modifies this`writerIndex, buf
      ensures Valid() && Contents() == old(Contents()) + data
      ensures WritableBytes() == old(WritableBytes()) - |data|
    {
      var i := 0;
      while i < |data|
        invariant i <= |data| && Valid() && writerIndex == old(writerIndex) && |data| <= WritableBytes()
        invariant Contents() == old(Contents())
        invariant buf[writerIndex..writerIndex + i] == data[..i]
      {
        buf[writerIndex + i] := data[i];
        assert data[..i + 1] == data[..i] + [data[i]];
        i := i + 1;
      }
      assert data[..|data|] == data;
      HasWritten(|data|);
    }

    /** Where the first line ends, from the first readable byte. */
    method FindCrlf() returns (k: Option<nat>)
      requires Valid()
      ensures k == FirstCrlf(Contents())
    {
      var i := readerIndex;
      while i + 2 <= writerIndex
        invariant readerIndex <= i
        invariant forall j :: 0 <= j < i - readerIndex && j + 2 <= |Contents()| ==> !(Contents()[j] == CR && Contents()[j + 1] == LF)
      {
        if buf[i] == CR && buf[i + 1] == LF {
          assert Contents()[i - readerIndex] == CR && Contents()[i - readerIndex + 1] == LF;
          return Some(i - readerIndex);
        }
        i := i + 1;
      }
      return None;
    }

    method RetrieveAll()
      requires Valid()
      modifies this`readerIndex, this`writerIndex
      ensures Valid() && Contents() == [] && WritableBytes() == buf.Length - CHEAP_PREPEND
    {
      readerIndex, writerIndex := CHEAP_PREPEND, CHEAP_PREPEND;
    }

    /** The first bytes are dropped; when nothing is left, all of the array can be written again. */
    method Retrieve(len: nat)
      requires Valid() && len <= ReadableBytes()
      modifies this`readerIndex, this`writerIndex
      ensures Valid() && Contents() == old(Contents())[len..]
      ensures WritableBytes() == if len < old(ReadableBytes()) then old(WritableBytes()) else buf.Length - CHEAP_PREPEND
    {
      if len < ReadableBytes() {
        readerIndex := readerIndex + len;
      } else {
        RetrieveAll();
      }
    }

    /** Drop what is before a place in the array. */
    method RetrieveUntil(end: nat)
      requires Valid() && readerIndex <= end <= writerIndex
      modifies this`readerIndex, this`writerIndex
      ensures Valid() && Contents() == old(Contents())[end - old(readerIndex)..]
    {
      Retrieve(end - readerIndex);
    }

    /** The bytes from peek() to a place behind it. */
    function Peek(len: nat): (s: seq<byte>)
      requires Valid() && len <= ReadableBytes()
      reads this, buf
      ensures s == Contents()[..len]
    {
      buf[readerIndex..readerIndex + len]
    }

    method RetrieveAsString(len: nat) returns (s: seq<byte>)
      requires Valid() && len <= ReadableBytes()
      modifies this`readerIndex, this`writerIndex
      ensures Valid() && s + Contents() == old(Contents()) && |s| == len
    {
      s := Peek(len);
      Retrieve(len);
    }

    method RetrieveAllAsString() returns (s: seq<byte>)
      requires Valid()
      modifies this`readerIndex, this`writerIndex
      ensures Valid() && s == old(Contents()) && Contents() == []
    {
      s := RetrieveAsString(ReadableBytes());
    }
  }
}
