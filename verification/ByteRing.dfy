/**
 A byte ring with one cell always left empty. It stands for a first-in first-out queue of at most
 bufSize - 1 bytes.
 */
module ByteRing {

  type byte = b: nat | b < 256

  function Min(a: nat, b: nat): nat {
    if a < b then a else b
  }

  /** The cell k steps after p, going round at most once. */
  function Cell(p: nat, k: nat, size: nat): nat {
    if p + k >= size then p + k - size else p + k
  }

  function Distance(from: nat, to: nat, size: nat): nat
    requires from < size && to < size
  {
    if to >= from then to - from else to - from + size
  }

  /** The n cells from p on, in order. */
  function Stretch(cells: seq<byte>, p: nat, n: nat): (s: seq<byte>)
    requires p < |cells| && n <= |cells|
    ensures |s| == n
  {
    seq(n, k requires 0 <= k < n => cells[Cell(p, k, |cells|)])
  }

  /** What the ring stores, oldest byte first. */
  function Stored(cells: seq<byte>, from: nat, to: nat): seq<byte>
    requires from < |cells| && to < |cells|
  {
    Stretch(cells, from, Distance(from, to, |cells|))
  }

  lemma StoredSplits(cells: seq<byte>, from: nat, to: nat, n: nat)
    requires from < |cells| && to < |cells| && n <= Distance(from, to, |cells|)
    ensures Stretch(cells, from, n) == Stored(cells, from, to)[..n]
    ensures Stored(cells, Cell(from, n, |cells|), to) == Stored(cells, from, to)[n..]
  {
  }

  lemma StretchStraight(cells: seq<byte>, p: nat, n: nat, m: nat)
    requires p < |cells| && p + n <= |cells| && m <= p && (m > 0 ==> p + n == |cells|)
    ensures n + m <= |cells| && Stretch(cells, p, n + m) == cells[p..p + n] + cells[..m]
  {
  }

  /** Moving the input pointer over n free cells stores what they hold. */
  lemma StoredGrows(cells: seq<byte>, from: nat, to: nat, n: nat)
    requires from < |cells| && to < |cells| && Distance(from, to, |cells|) + n < |cells|
    ensures Stored(cells, from, Cell(to, n, |cells|)) == Stored(cells, from, to) + Stretch(cells, to, n)
  {
  }

  /** The n cells from `to` on now hold `bytes`, and the other cells are as before. */
  ghost predicate Laid(before: seq<byte>, after: seq<byte>, to: nat, bytes: seq<byte>) {
    && |before| == |after| && to < |before|
    && forall c: nat :: c < |before| ==>
         after[c] == var d := Distance(to, c, |before|); if d < |bytes| then bytes[d] else before[c]
  }

  function Overlay(cells: seq<byte>, p: nat, bytes: seq<byte>): (r: seq<byte>)
    requires p + |bytes| <= |cells|
    ensures |r| == |cells|
  {
    cells[..p] + bytes + cells[p + |bytes|..]
  }

  lemma LaidStraight(before: seq<byte>, to: nat, bytes: seq<byte>)
    requires to < |before| && to + |bytes| <= |before|
    ensures Laid(before, Overlay(before, to, bytes), to, bytes)
  {
  }

  lemma LaidRound(before: seq<byte>, to: nat, source: seq<byte>, n: nat, m: nat)
    requires to < |before| && to + n == |before| && m <= to && n + m <= |source|
    ensures Laid(before, Overlay(Overlay(before, to, source[..n]), 0, source[n..n + m]), to, source[..n + m])
  {
  }

  /** Copying in one piece. */
  lemma StraightIsGot(cells: seq<byte>, out: seq<byte>, after: seq<byte>, from: nat, to: nat, n: nat)
    requires from < |cells| && to < |cells| && from + n <= |cells| && n <= |out| && n <= Distance(from, to, |cells|)
    requires after == Overlay(out, 0, cells[from..from + n])
    ensures Got(cells, out, after, from, to, Cell(from, n, |cells|), n)
  {
    assert Overlay(after, n, cells[..0]) == after;
    CopiedIsGot(cells, out, after, from, to, n, 0);
  }

  /** The oldest n bytes were copied out, and the read pointer moved past them. */
  ghost predicate Got(cells: seq<byte>, out: seq<byte>, after: seq<byte>, from: nat, to: nat, newFrom: nat, n: nat) {
    && from < |cells| && to < |cells| && newFrom == Cell(from, n, |cells|) < |cells| && n <= |out| == |after|
    && n <= Distance(from, to, |cells|)
    && after[..n] == Stored(cells, from, to)[..n] && after[n..] == out[n..]
    && Stored(cells, newFrom, to) == Stored(cells, from, to)[n..]
  }

  /** Copying the cells from the read pointer on, in one or two pieces, is getting the oldest bytes. */
  lemma CopiedIsGot(cells: seq<byte>, out: seq<byte>, after: seq<byte>, from: nat, to: nat, first: nat, second: nat)
    requires from < |cells| && to < |cells| && from + first <= |cells| && second <= from &&
             (second > 0 ==> from + first == |cells|)
    requires first + second <= |out| && first + second <= Distance(from, to, |cells|)
    requires after == Overlay(Overlay(out, 0, cells[from..from + first]), first, cells[..second])
    ensures Got(cells, out, after, from, to, Cell(from, first + second, |cells|), first + second)
  {
    StretchStraight(cells, from, first, second);
    StoredSplits(cells, from, to, first + second);
    assert after == (cells[from..from + first] + cells[..second]) + out[first + second..];
  }

  /** Copying in two pieces, up to the end of the cells and then from their start. */
  lemma RoundIsGot(cells: seq<byte>, out: seq<byte>, mid: seq<byte>, after: seq<byte>, from: nat, to: nat,
                   first: nat, second: nat)
    requires to < from < |cells| && from + first == |cells| && second <= to && first + second <= |out|
    requires mid == Overlay(out, 0, cells[from..from + first])
    requires after == Overlay(mid, first, cells[..second])
    ensures Got(cells, out, after, from, to, second, first + second)
  {
    CopiedIsGot(cells, out, after, from, to, first, second);
  }

  /** Bytes laid on free cells are stored by moving the input pointer over them. */
  lemma LaidIsPut(before: seq<byte>, after: seq<byte>, from: nat, to: nat, bytes: seq<byte>)
    requires Laid(before, after, to, bytes) && from < |before|
    requires Distance(from, to, |before|) + |bytes| < |before|
    ensures Stored(after, from, Cell(to, |bytes|, |after|)) == Stored(before, from, to) + bytes
  {
    var size, n := |before|, |bytes|;
    StoredGrows(after, from, to, n);
    forall k: nat | k < n ensures after[Cell(to, k, size)] == bytes[k] {
      assert Distance(to, Cell(to, k, size), size) == k;
    }
    assert Stretch(after, to, n) == bytes;
    forall k: nat | k < Distance(from, to, size) ensures after[Cell(from, k, size)] == before[Cell(from, k, size)] {
      assert Distance(to, Cell(from, k, size), size) >= n;
    }
    assert Stored(after, from, to) == Stored(before, from, to);
  }

  class ByteRing {
    var buf: array<byte>
    var pToBuf: nat
    var pFromBuf: nat

    ghost predicate Valid()
      reads this
    {
      pToBuf < buf.Length && pFromBuf < buf.Length
    }

    ghost function Contents(): (s: seq<byte>)
      requires Valid()
      reads this, buf
      ensures |s| < buf.Length
    {
      Stored(buf[..], pFromBuf, pToBuf)
    }

    ghost function Free(): (n: nat)
      requires Valid()
      reads this, buf
    {
      buf.Length - 1 - |Contents()|
    }

    /** The n bytes lying ahead of the input pointer, put there but not yet stored. */
    ghost function Ahead(n: nat): seq<byte>
      requires Valid() && n <= buf.Length
      reads this, buf
    {
      Stretch(buf[..], pToBuf, n)
    }

    /** One cell more than asked for. */
    constructor (nbytes: nat)
      ensures Valid() && fresh(buf) && buf.Length == nbytes + 1 && Contents() == [] && Free() == nbytes
    {
      buf := new byte[nbytes + 1](_ => 0);
      pToBuf, pFromBuf := 0, 0;
    }

    method Flush()
      requires Valid()
      modifies this`pToBuf, this`pFromBuf
      ensures Valid() && Contents() == [] && Free() == buf.Length - 1
    {
      pToBuf := 0;
      pFromBuf := 0;
    }

    /** Takes out the oldest min(maxbytes, stored) bytes. */
    method BufGet(buffer: array<byte>, maxbytes: nat) returns (bytesgot: nat)
      requires Valid() && buffer != buf && maxbytes <= buffer.Length
      modifies this`pFromBuf, buffer
      ensures Valid()
      ensures bytesgot == Min(maxbytes, |old(Contents())|)
      ensures buffer[..bytesgot] == old(Contents())[..bytesgot] && buffer[bytesgot..] == old(buffer[bytesgot..])
      ensures Contents() == old(Contents())[bytesgot..]
      ensures pFromBuf == Cell(old(pFromBuf), bytesgot, buf.Length)
    {
      if pToBuf >= pFromBuf {
        bytesgot := GetStraight(buffer, maxbytes);
      } else {
        bytesgot := GetWrapped(buffer, maxbytes);
      }
    }

    /** The input pointer has not wrapped. */
    method GetStraight(buffer: array<byte>, maxbytes: nat) returns (bytesgot: nat)
      requires Valid() && buffer != buf && maxbytes <= buffer.Length && pToBuf >= pFromBuf
      modifies this`pFromBuf, buffer
      ensures bytesgot == Min(maxbytes, Distance(old(pFromBuf), pToBuf, buf.Length))
      ensures Got(buf[..], old(buffer[..]), buffer[..], old(pFromBuf), pToBuf, pFromBuf, bytesgot)
    {
      ghost var cells, out := buf[..], buffer[..];
      bytesgot := Min(maxbytes, pToBuf - pFromBuf);
      Bcopy(buf, pFromBuf, buffer, 0, bytesgot);
      StraightIsGot(cells, out, buffer[..], pFromBuf, pToBuf, bytesgot);
      pFromBuf := pFromBuf + bytesgot;
    }

    /** The input pointer has wrapped: takes bytes up to the end of the cells, then from the start. */
    method GetWrapped(buffer: array<byte>, maxbytes: nat) returns (bytesgot: nat)
      requires Valid() && buffer != buf && maxbytes <= buffer.Length && pToBuf < pFromBuf
      modifies this`pFromBuf, buffer
      ensures bytesgot == Min(maxbytes, Distance(old(pFromBuf), pToBuf, buf.Length))
      ensures Got(buf[..], old(buffer[..]), buffer[..], old(pFromBuf), pToBuf, pFromBuf, bytesgot)
    {
      ghost var cells, out := buf[..], buffer[..];
      bytesgot := Min(maxbytes, buf.Length - pFromBuf);
      Bcopy(buf, pFromBuf, buffer, 0, bytesgot);
      var tmp := pFromBuf + bytesgot;
      if tmp == buf.Length {
        var bytes2 := GetFromStart(buffer, bytesgot, maxbytes - bytesgot, out);
        bytesgot := bytesgot + bytes2;
      } else {
        StraightIsGot(cells, out, buffer[..], pFromBuf, pToBuf, bytesgot);
        pFromBuf := tmp;
      }
    }

    /** With the cells up to their end copied, goes on from their start. */
    method GetFromStart(buffer: array<byte>, first: nat, left: nat, ghost out: seq<byte>) returns (bytes2: nat)
      requires Valid() && buffer != buf && pToBuf < pFromBuf && pFromBuf + first == buf.Length
      requires first + left <= buffer.Length == |out|
      requires buffer[..] == Overlay(out, 0, buf[..][pFromBuf..pFromBuf + first])
      modifies this`pFromBuf, buffer
      ensures bytes2 == Min(left, pToBuf)
      ensures Got(buf[..], out, buffer[..], old(pFromBuf), pToBuf, pFromBuf, first + bytes2)
    {
      ghost var cells, mid := buf[..], buffer[..];
      bytes2 := Min(left, pToBuf);
      Bcopy(buf, 0, buffer, first, bytes2);
      RoundIsGot(cells, out, mid, buffer[..], pFromBuf, pToBuf, first, bytes2);
      pFromBuf := bytes2;
    }

    /** Stores the first min(nbytes, free) bytes. */
    method BufPut(buffer: array<byte>, nbytes: nat) returns (bytesput: nat)
      requires Valid() && buffer != buf && nbytes <= buffer.Length
      modifies this`pToBuf, buf
      ensures Valid() && buf == old(buf)
      ensures bytesput == Min(nbytes, old(Free()))
      ensures Contents() == old(Contents()) + buffer[..bytesput]
      ensures pToBuf == Cell(old(pToBuf), bytesput, buf.Length)
    {
      var from := pFromBuf;
      ghost var before, to := buf[..], pToBuf;
      if from > pToBuf {
        bytesput := PutStraight(buffer, nbytes, from - pToBuf - 1);
      } else if from == 0 {
        bytesput := PutStraight(buffer, nbytes, buf.Length - pToBuf - 1);
      } else {
        bytesput := PutAcross(buffer, nbytes);
      }
      LaidIsPut(before, buf[..], from, to, buffer[..][..bytesput]);
      assert buffer[..bytesput] == buffer[..][..bytesput];
    }

    /** There is room for `room` bytes before the cells end or the read pointer comes. */
    method PutStraight(buffer: array<byte>, nbytes: nat, room: nat) returns (bytesput: nat)
      requires Valid() && buffer != buf && nbytes <= buffer.Length && pToBuf + room < buf.Length
      modifies this`pToBuf, buf
      ensures bytesput == Min(nbytes, room) && pToBuf == Cell(old(pToBuf), bytesput, buf.Length)
      ensures buffer[..] == old(buffer[..]) && Laid(old(buf[..]), buf[..], old(pToBuf), buffer[..][..bytesput])
    {
      ghost var before, source := buf[..], buffer[..];
      bytesput := Min(nbytes, room);
      Bcopy(buffer, 0, buf, pToBuf, bytesput);
      LaidStraight(before, pToBuf, source[..bytesput]);
      pToBuf := pToBuf + bytesput;
    }

    /** The read pointer is not at the start: fills up to the end of the cells, then from the start. */
    method PutAcross(buffer: array<byte>, nbytes: nat) returns (bytesput: nat)
      requires Valid() && buffer != buf && nbytes <= buffer.Length && 0 < pFromBuf <= pToBuf
      modifies this`pToBuf, buf
      ensures bytesput == Min(nbytes, buf.Length - 1 - (old(pToBuf) - pFromBuf))
      ensures pToBuf == Cell(old(pToBuf), bytesput, buf.Length)
      ensures buffer[..] == old(buffer[..]) && Laid(old(buf[..]), buf[..], old(pToBuf), buffer[..][..bytesput])
    {
      ghost var before, to, source := buf[..], pToBuf, buffer[..];
      bytesput := Min(nbytes, buf.Length - pToBuf);
      Bcopy(buffer, 0, buf, pToBuf, bytesput);
      var tmp := pToBuf + bytesput;
      if tmp == buf.Length {
        var bytes2 := Min(nbytes - bytesput, pFromBuf - 1);
        Bcopy(buffer, bytesput, buf, 0, bytes2);
        LaidRound(before, to, source, bytesput, bytes2);
        pToBuf := bytes2;
        bytesput := bytesput + bytes2;
      } else {
        LaidStraight(before, to, source[..bytesput]);
        pToBuf := tmp;
      }
    }

    method IsEmpty() returns (r: bool)
      requires Valid()
      ensures r <==> Contents() == []
    {
      r := pToBuf == pFromBuf;
    }

    method IsFull() returns (r: bool)
      requires Valid()
      ensures r <==> Free() == 0
    {
      var n := pToBuf - pFromBuf + 1;
      r := n == 0 || n == buf.Length;
    }

    method NBytes() returns (r: nat)
      requires Valid()
      ensures r == |Contents()|
    {
      var n := pToBuf - pFromBuf;
      if n < 0 {
        n := n + buf.Length;
      }
      r := n;
    }

    /** Puts a byte `offset` cells ahead of the input pointer; nothing is stored yet. */
    method PutAhead(b: byte, offset: nat)
      requires Valid() && offset + 1 <= Free()
      modifies buf
      ensures Valid() && Contents() == old(Contents())
      ensures forall n :: offset < n <= buf.Length ==> Ahead(n) == old(Ahead(n))[offset := b]
      ensures forall n :: 0 <= n <= offset ==> Ahead(n) == old(Ahead(n))
    {
      var n := pToBuf + offset;
      if n >= buf.Length {
        n := n - buf.Length;
      }
      buf[n] := b;
    }

    /** Stores the n bytes that lie ahead. */
    method MoveAhead(n: nat)
      requires Valid() && n <= Free()
      modifies this`pToBuf
      ensures Valid() && Contents() == old(Contents()) + old(Ahead(n))
      ensures pToBuf == Cell(old(pToBuf), n, buf.Length)
    {
      StoredGrows(buf[..], pFromBuf, pToBuf, n);
      var m := n + pToBuf;
      if m >= buf.Length {
        m := m - buf.Length;
      }
      pToBuf := m;
    }

    /** Putting bytes ahead one by one and moving ahead is a put of those bytes, when they fit. */
    method PutAheadThenMove(buffer: array<byte>, k: nat)
      requires Valid() && buffer != buf && k <= buffer.Length && k <= Free()
      modifies this`pToBuf, buf
      ensures Valid() && buf == old(buf)
      ensures Contents() == old(Contents()) + buffer[..k] && pToBuf == Cell(old(pToBuf), k, buf.Length)
    {
      for i := 0 to k
        invariant Valid() && Contents() == old(Contents()) && pToBuf == old(pToBuf)
        invariant Ahead(i) == buffer[..i]
      {
        PutAhead(buffer[i], i);
        assert Ahead(i + 1)[..i] == Ahead(i) && Ahead(i + 1)[i] == buffer[i];
      }
      MoveAhead(k);
    }

    /** A pure peek: BufGet with the read pointer put back. */
    method BufGetNoDel(buffer: array<byte>, maxbytes: nat) returns (retval: nat)
      requires Valid() && buffer != buf && maxbytes <= buffer.Length
      modifies this`pFromBuf, buffer
      ensures Valid() && pFromBuf == old(pFromBuf) && Contents() == old(Contents())
      ensures retval == Min(maxbytes, |Contents()|)
      ensures buffer[..retval] == Contents()[..retval] && buffer[retval..] == old(buffer[retval..])
    {
      var temp := pFromBuf;
      retval := BufGet(buffer, maxbytes);
      pFromBuf := temp;
    }

    /** The same as a get of n bytes that are thrown away, for n within what is stored. */
    method MoveRead(n: nat)
      requires Valid() && n <= |Contents()|
      modifies this`pFromBuf
      ensures Valid() && Contents() == old(Contents())[n..]
      ensures pFromBuf == Cell(old(pFromBuf), n, buf.Length)
    {
      StoredSplits(buf[..], pFromBuf, pToBuf, n);
      var m := n + pFromBuf;
      if m >= buf.Length {
        m := m - buf.Length;
      }
      pFromBuf := m;
    }
  }

  method Bcopy(src: array<byte>, from: nat, dest: array<byte>, to: nat, count: nat)
    requires src != dest && from + count <= src.Length && to + count <= dest.Length
    modifies dest
    ensures dest[..] == Overlay(old(dest[..]), to, src[..][from..from + count])
    ensures from == 0 ==> dest[..] == Overlay(old(dest[..]), to, src[..][..count])
    ensures src[..] == old(src[..])
  {
    var done := 0;
    while done < count
      invariant done <= count
      invariant forall k :: 0 <= k < dest.Length ==>
                dest[k] == if to <= k < to + done then src[from + (k - to)] else old(dest[k])
    {
      dest[to + done] := src[from + done];
      done := done + 1;
    }
  }
}
