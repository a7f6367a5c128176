/**
 A file of fixed size written round and round. It stands for the last bytes of everything written,
 the file having started as zeros.
 */
module CircularFile {
  import opened ByteRing
  import opened StreamBuffer

  function Zeros(n: nat): (z: seq<byte>)
    ensures |z| == n
  {
    seq(n, _ => 0)
  }

  /** The last `size` bytes of zeros followed by what was written. */
  function LastBytes(written: seq<byte>, size: nat): (r: seq<byte>)
    ensures |r| == size
  {
    (Zeros(size) + written)[|written|..]
  }

  /** Copying a chunk over the cells from the current one on, not past the end. */
  lemma ChunkIsHeld(before: seq<byte>, after: seq<byte>, written: seq<byte>, chunk: seq<byte>)
    requires |before| > 0 && Holds(before, written, 0, |before|, [])
    requires |written| % |before| + |chunk| <= |before|
    requires after == Overlay(before, |written| % |before|, chunk)
    ensures Holds(after, written + chunk, 0, |after|, [])
  {
    var size, w, n := |before|, |written|, |chunk|;
    var all := written + chunk;
    forall k: int | w + n - size <= k < w + n ensures after[k % size] == At(all, 0, k) {
      var d := k - (w - size);
      ModAdd(w, d - size, size);
      assert k % size == (w % size + (d - size)) % size;
      if k < w {
        CellOf(w % size, d, size);
        assert before[k % size] == At(written, 0, k);
      } else {
        SmallMod(w % size + (k - w), size);
      }
    }
  }

  /** The cell d steps after p, for d up to a whole turn. */
  lemma CellOf(p: nat, d: nat, size: nat)
    requires p < size && d < size
    ensures (p + (d - size)) % size == if p + d < size then p + d else p + d - size
  {
    if p + d < size {
      WrapMod(p + (d - size), size);
    } else {
      SmallMod(p + (d - size), size);
    }
  }

  class CircularFile {
    const size: nat
    const buffer: array<byte>
    var current: nat
    var bytesRead: nat
    ghost var written: seq<byte>

    ghost predicate Valid()
      reads this, buffer
    {
      && size > 0 && buffer.Length == size
      && current == |written| % size && bytesRead <= size
      && Holds(buffer[..], written, 0, size, [])
    }

    /** A new file; the header checks demand a positive size. */
    constructor (size: nat)
      requires size > 0
      ensures Valid() && fresh(buffer) && this.size == size && written == [] && bytesRead == 0
    {
      this.size := size;
      buffer := new byte[size](_ => 0);
      current, bytesRead, written := 0, 0, [];
    }

    /** One turn of the write loop: copies up to the end of the cells at most. */
    method WritePiece(data: array<byte>, next: nat, left: nat) returns (n: nat)
      requires Valid() && data != buffer && 0 < left && next + left <= data.Length
      modifies buffer, this`current, this`written
      ensures Valid() && 1 <= n <= left && data[..] == old(data[..])
      ensures written == old(written) + data[..][next..next + n]
    {
      n := Min(left, size - current);
      ghost var before, chunk := buffer[..], data[..][next..next + n];
      Bcopy(data, next, buffer, current, n);
      ChunkIsHeld(before, buffer[..], written, chunk);
      ModAdd(|written|, n, size);
      if current + n == size {
        WrapMod(current + n, size);
      } else {
        SmallMod(current + n, size);
      }
      current := current + n;
      if current >= size {
        current := 0;
      }
      written := written + chunk;
    }

    /** A count below one writes nothing. What is kept depends only on what was kept and what is written. */
    method Write(data: array<byte>, nbytes: int) returns (ok: bool)
      requires Valid() && data != buffer && nbytes <= data.Length
      modifies buffer, this`current, this`written
      ensures Valid() && ok
      ensures var n := if nbytes > 0 then nbytes else 0;
                && written == old(written) + data[..n]
                && LastBytes(written, size) == (LastBytes(old(written), size) + data[..n])[n..]
    {
      var left, next := nbytes, 0;
      ghost var source := data[..];
      while left > 0
        invariant Valid() && 0 <= next <= data.Length && data[..] == source
        invariant if nbytes > 0 then left >= 0 && next + left == nbytes else left == nbytes && next == 0
        invariant written == old(written) + source[..next]
        decreases left
      {
        var n := WritePiece(data, next, left);
        assert source[..next] + source[next..next + n] == source[..next + n];
        next := next + n;
        left := left - n;
      }
      assert source[..next] == data[..next];
      LastOfLonger(old(written), source[..next], size);
      ok := true;
    }

    /** Hands out the next bytes of the last `size` ones, up to their end. */
    method Read(data: array<byte>, nbytes: int) returns (total: nat)
      requires Valid() && data != buffer && nbytes <= data.Length
      modifies data, this`bytesRead
      ensures Valid() && total == Amount(size, old(bytesRead), nbytes)
      ensures bytesRead == old(bytesRead) + total
      ensures Delivered(LastBytes(written, size), old(bytesRead), total, old(data[..]), data[..])
    {
      total := 0;
      var left: int := if nbytes < size - bytesRead then nbytes else size - bytesRead;
      ghost var from, out, goal := bytesRead, data[..], Amount(size, bytesRead, nbytes);
      while left > 0
        invariant Valid() && bytesRead == from + total && total <= goal
        invariant left > 0 ==> total + left == goal
        invariant left <= 0 ==> total == goal
        invariant Delivered(LastBytes(written, size), from, total, out, data[..])
        decreases left
      {
        var n := CopyPiece(data, total, left, from, out);
        total := total + n;
        left := left - n;
      }
    }

    /** One turn of the read loop: copies up to the end of the cells at most. */
    method CopyPiece(data: array<byte>, at: nat, left: nat, ghost from: nat, ghost out: seq<byte>) returns (n: nat)
      requires Valid() && data != buffer && 0 < left <= size - bytesRead && at + left <= data.Length
      requires bytesRead == from + at && Delivered(LastBytes(written, size), from, at, out, data[..])
      modifies data, this`bytesRead
      ensures Valid() && 1 <= n <= left && bytesRead == old(bytesRead) + n && buffer[..] == old(buffer[..])
      ensures Delivered(LastBytes(written, size), from, at + n, out, data[..])
    {
      ghost var last, before := LastBytes(written, size), data[..];
      var offset := (current + bytesRead) % size;
      n := Min(left, size - offset);
      CellsAreLast(buffer[..], written, bytesRead, offset, n);
      Bcopy(buffer, offset, data, at, n);
      PieceDelivered(last, from, at, out, before, n);
      bytesRead := bytesRead + n;
    }

    /** Whatever reads follow join up to a prefix of the last bytes, from the oldest on. */
    method ResetReadPointer()
      requires Valid()
      modifies this`bytesRead
      ensures Valid() && bytesRead == 0
      ensures forall sizes ::
                Served(LastBytes(written, size), bytesRead, sizes) ==
                  LastBytes(written, size)[..Min(size, Asked(sizes))]
    {
      bytesRead := 0;
      ghost var last := LastBytes(written, size);
      forall sizes ensures Served(last, 0, sizes) == last[..Min(size, Asked(sizes))] {
        ReadsJoinUp(last, 0, sizes);
      }
    }
  }

  /** How many bytes a read of nbytes hands out. */
  function Amount(size: nat, bytesRead: nat, nbytes: int): nat
    requires bytesRead <= size
  {
    if nbytes <= 0 then 0 else Min(nbytes, size - bytesRead)
  }

  lemma LastByteAt(written: seq<byte>, size: nat, j: nat)
    requires j < size
    ensures LastBytes(written, size)[j] == At(written, 0, |written| - size + j)
  {
  }

  /** The cell `done` steps after the current one, going round, holds the byte `done` of the last ones. */
  lemma CellIsLast(cells: seq<byte>, written: seq<byte>, j: nat)
    requires |cells| > 0 && Holds(cells, written, 0, |cells|, []) && j < |cells|
    ensures cells[(|written| % |cells| + j) % |cells|] == LastBytes(written, |cells|)[j]
  {
    var size, w := |cells|, |written|;
    ModAdd(w, j, size);
    ShiftMod(w + j, size, -1);
    LastByteAt(written, size, j);
    assert cells[(w - size + j) % size] == At(written, 0, w - size + j);
  }

  lemma StepInside(a: nat, i: nat, size: nat)
    requires size > 0 && a % size + i < size
    ensures (a + i) % size == a % size + i
  {
    ModAdd(a, i, size);
    SmallMod(a % size + i, size);
  }

  lemma CellFurther(cells: seq<byte>, written: seq<byte>, done: nat, i: nat, offset: nat)
    requires |cells| > 0 && Holds(cells, written, 0, |cells|, []) && done + i < |cells|
    requires offset == (|written| % |cells| + done) % |cells| && offset + i < |cells|
    ensures cells[offset + i] == LastBytes(written, |cells|)[done + i]
  {
    StepInside(|written| % |cells| + done, i, |cells|);
    CellIsLast(cells, written, done + i);
  }

  /** n cells from an offset, not past the end, are the next n of the last bytes. */
  lemma CellsAreLast(cells: seq<byte>, written: seq<byte>, done: nat, offset: nat, n: nat)
    requires |cells| > 0 && Holds(cells, written, 0, |cells|, []) && done + n <= |cells|
    requires offset == (|written| % |cells| + done) % |cells| && offset + n <= |cells|
    ensures cells[offset..offset + n] == LastBytes(written, |cells|)[done..done + n]
  {
    var piece, want := cells[offset..offset + n], LastBytes(written, |cells|)[done..done + n];
    forall i: nat | i < n ensures piece[i] == want[i] {
      CellFurther(cells, written, done, i, offset);
    }
  }

  /** So far, `total` of the last bytes from `from` on were copied over the front of `out`. */
  ghost predicate Delivered(last: seq<byte>, from: nat, total: nat, out: seq<byte>, now: seq<byte>) {
    && from + total <= |last| && total <= |out| == |now|
    && now[..total] == last[from..from + total] && now[total..] == out[total..]
  }

  lemma PieceDelivered(last: seq<byte>, from: nat, total: nat, out: seq<byte>, now: seq<byte>, n: nat)
    requires Delivered(last, from, total, out, now) && from + total + n <= |last| && total + n <= |out|
    ensures Delivered(last, from, total + n, out, Overlay(now, total, last[from + total..from + total + n]))
  {
    var next := Overlay(now, total, last[from + total..from + total + n]);
    assert next[..total + n] == now[..total] + last[from + total..from + total + n];
    assert next[total + n..] == now[total..][n..];
  }

  // ------------------------------------------------------------------------------------
  // Reads of any sizes
  // ------------------------------------------------------------------------------------

  /** What a row of reads hands out, one after the other. */
  function Served(last: seq<byte>, done: nat, sizes: seq<int>): seq<byte>
    requires done <= |last|
    decreases |sizes|
  {
    if sizes == [] then []
    else
      var n := Amount(|last|, done, sizes[0]);
      last[done..done + n] + Served(last, done + n, sizes[1..])
  }

  function Asked(sizes: seq<int>): nat {
    if sizes == [] then 0 else (if sizes[0] > 0 then sizes[0] else 0) + Asked(sizes[1..])
  }

  /** Reads after a reset join up to the first bytes asked for, and to all of them at most. */
  lemma {:induction false} ReadsJoinUp(last: seq<byte>, done: nat, sizes: seq<int>)
    requires done <= |last|
    ensures Served(last, done, sizes) == last[done..Min(|last|, done + Asked(sizes))]
    decreases |sizes|
  {
    if sizes == [] {
      assert last[done..Min(|last|, done + 0)] == [];
    } else {
      var n := Amount(|last|, done, sizes[0]);
      var next := done + n;
      ReadsJoinUp(last, next, sizes[1..]);
      EndAgrees(|last|, done, sizes);
      ServedFirst(last, done, sizes);
      SlicesJoin(last, done, next, Min(|last|, done + Asked(sizes)));
    }
  }

  lemma ServedFirst(last: seq<byte>, done: nat, sizes: seq<int>)
    requires done <= |last| && sizes != []
    ensures var next := done + Amount(|last|, done, sizes[0]);
            next <= |last| && Served(last, done, sizes) == last[done..next] + Served(last, next, sizes[1..])
  {
  }

  /** Where the reads end does not depend on whether the first of them is counted apart. */
  lemma EndAgrees(size: nat, done: nat, sizes: seq<int>)
    requires done <= size && sizes != []
    ensures var next := done + Amount(size, done, sizes[0]);
            next <= Min(size, next + Asked(sizes[1..])) == Min(size, done + Asked(sizes))
  {
  }

  lemma SlicesJoin(s: seq<byte>, from: nat, mid: nat, to: nat)
    requires from <= mid <= to <= |s|
    ensures s[from..mid] + s[mid..to] == s[from..to]
  {
  }

  /** Once everything was asked for, all of it was handed out, and any further read gets nothing. */
  lemma NothingLeftAfterAll(last: seq<byte>, sizes: seq<int>, more: int)
    requires Asked(sizes) >= |last|
    ensures Served(last, 0, sizes) == last && Served(last, |last|, [more]) == []
  {
    ReadsJoinUp(last, 0, sizes);
  }

  /** Writing in pieces is writing the pieces joined. */
  lemma LastOfLonger(a: seq<byte>, b: seq<byte>, size: nat)
    ensures LastBytes(a + b, size) == (LastBytes(a, size) + b)[|b|..]
  {
    assert Zeros(size) + (a + b) == (Zeros(size) + a) + b;
  }
}
