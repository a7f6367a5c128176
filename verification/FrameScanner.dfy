/**
 The amplitude analysis block: bytes go into a ring, and a scanner takes frames out of it, skipping
 a byte at a time until a frame header is in place.
 */
module FrameScanner {
  import opened ByteRing

  /** Bytes of the frame structure. */
  const HEADER := 1024

  const LONG_FRAME := 2048

  const HEAD := 0x55444648

  /** A reserves word of 2024 announces a long frame. */
  const LONG_MARK := 2024

  /** Four bytes from `at`, least significant first. */
  function Word(s: seq<byte>, at: nat): int
    requires at + 4 <= |s|
  {
    s[at] as int + 0x100 * (s[at + 1] as int) + 0x1_0000 * (s[at + 2] as int) + 0x100_0000 * (s[at + 3] as int)
  }

  predicate HasHead(s: seq<byte>)
    requires |s| >= HEADER
  {
    Word(s, 4) == HEAD
  }

  function FrameLength(s: seq<byte>): nat
    requires |s| >= HEADER
  {
    if Word(s, 8) == LONG_MARK then LONG_FRAME else HEADER
  }

  // ------------------------------------------------------------------------------------
  // Scanning a sequence
  // ------------------------------------------------------------------------------------

  datatype Piece = Skipped(b: byte) | Frame(bytes: seq<byte>)

  datatype Scan = Scan(pieces: seq<Piece>, rest: seq<byte>)

  /** Nothing can be decided before more bytes come. */
  predicate Stuck(s: seq<byte>) {
    |s| < HEADER || (HasHead(s) && |s| < FrameLength(s))
  }

  function First(s: seq<byte>): (p: Piece)
    requires !Stuck(s)
    ensures 1 <= |Bytes(p)| <= |s| && Bytes(p) == s[..|Bytes(p)|]
  {
    if HasHead(s) then Frame(s[..FrameLength(s)]) else Skipped(s[0])
  }

  function Bytes(p: Piece): seq<byte> {
    match p
    case Skipped(b) => [b]
    case Frame(bytes) => bytes
  }

  function AllBytes(ps: seq<Piece>): seq<byte> {
    if ps == [] then [] else Bytes(ps[0]) + AllBytes(ps[1..])
  }

  function Frames(ps: seq<Piece>): (fs: seq<seq<byte>>)
    ensures |fs| <= |ps|
  {
    if ps == [] then [] else (if ps[0].Frame? then [ps[0].bytes] else []) + Frames(ps[1..])
  }

  /** What follows the first piece. */
  function Behind(s: seq<byte>): (r: seq<byte>)
    requires !Stuck(s)
    ensures |r| < |s|
  {
    s[|Bytes(First(s))|..]
  }

  lemma FirstThenBehind(s: seq<byte>)
    requires !Stuck(s)
    ensures Bytes(First(s)) + Behind(s) == s
  {
  }

  function ScanAll(s: seq<byte>): Scan
    decreases |s|
  {
    if Stuck(s) then Scan([], s)
    else
      var later := ScanAll(Behind(s));
      Scan([First(s)] + later.pieces, later.rest)
  }

  /** A whole frame: its head is in place and its length is the one its own header announces. */
  predicate Whole(f: seq<byte>) {
    |f| >= HEADER && HasHead(f) && |f| == FrameLength(f)
  }

  lemma ScanStep(s: seq<byte>)
    requires !Stuck(s)
    ensures var later := ScanAll(Behind(s));
            ScanAll(s) == Scan([First(s)] + later.pieces, later.rest)
  {
  }

  lemma PrependPiece(p: Piece, later: seq<Piece>, rest: seq<byte>)
    ensures AllBytes([p] + later) + rest == Bytes(p) + (AllBytes(later) + rest)
    ensures Frames([p] + later) == (if p.Frame? then [p.bytes] else []) + Frames(later)
  {
    assert ([p] + later)[1..] == later;
  }

  lemma FirstIsWhole(s: seq<byte>)
    requires !Stuck(s) && First(s).Frame?
    ensures Whole(First(s).bytes)
  {
    SameHeader(s, First(s).bytes);
  }

  /**
   A whole frame, byte by byte: it begins with four bytes of any kind and HFDU, and is 2048 bytes long if the
   reserves word that follows is 2024, least significant byte first, and else 1024.
   */
  lemma WholeFrameBytes(f: seq<byte>)
    ensures Whole(f) <==>
            && |f| >= 1024 && f[4..8] == [0x48, 0x46, 0x44, 0x55]
            && |f| == (if f[8..12] == [0xe8, 0x07, 0, 0] then 2048 else 1024)
  {
    if |f| >= 1024 {
      WordBytes(f, 4, [0x48, 0x46, 0x44, 0x55]);
      WordBytes(f, 8, [0xe8, 0x07, 0, 0]);
    }
  }

  /** Four bytes are known from their word. */
  lemma WordBytes(s: seq<byte>, at: nat, bytes: seq<byte>)
    requires at + 4 <= |s| && |bytes| == 4
    ensures s[at..at + 4] == bytes <==> Word(s, at) == Word(bytes, 0)
  {
    var a := s[at..at + 4];
    if Word(s, at) == Word(bytes, 0) {
      DigitsAgree(a[0], a[1], a[2], a[3], bytes[0], bytes[1], bytes[2], bytes[3]);
      assert a == [a[0], a[1], a[2], a[3]] && bytes == [bytes[0], bytes[1], bytes[2], bytes[3]];
    }
  }

  lemma DigitsAgree(a0: byte, a1: byte, a2: byte, a3: byte, b0: byte, b1: byte, b2: byte, b3: byte)
    requires a0 + 0x100 * a1 + 0x1_0000 * a2 + 0x100_0000 * a3 == b0 + 0x100 * b1 + 0x1_0000 * b2 + 0x100_0000 * b3
    ensures a0 == b0 && a1 == b1 && a2 == b2 && a3 == b3
  {
    LastDigitAgrees(a0, a1 + 0x100 * a2 + 0x1_0000 * a3, b0, b1 + 0x100 * b2 + 0x1_0000 * b3);
    LastDigitAgrees(a1, a2 + 0x100 * a3, b1, b2 + 0x100 * b3);
    LastDigitAgrees(a2, a3, b2, b3);
  }

  lemma LastDigitAgrees(a: byte, x: nat, b: byte, y: nat)
    requires a + 0x100 * x == b + 0x100 * y
    ensures a == b && x == y
  {
  }

  /** A scan takes a frame exactly where all of one is in place, and otherwise skips a byte or waits. */
  lemma FirstIsFrameExactlyWhen(s: seq<byte>)
    ensures (!Stuck(s) && First(s).Frame?) <==> exists n: nat :: n <= |s| && Whole(s[..n])
    ensures !Stuck(s) && First(s).Frame? ==> Whole(First(s).bytes) && First(s).bytes <= s
    ensures Stuck(s) ==> |s| < 1024 || (s[4..8] == [0x48, 0x46, 0x44, 0x55] && |s| < 2048)
    ensures !Stuck(s) && First(s).Skipped? ==> |s| >= 1024 && s[4..8] != [0x48, 0x46, 0x44, 0x55]
  {
    if |s| >= 1024 {
      WordBytes(s, 4, [0x48, 0x46, 0x44, 0x55]);
    }
    if !Stuck(s) && First(s).Frame? {
      FirstIsWhole(s);
      assert s[..|First(s).bytes|] == First(s).bytes;
    }
    if n: nat :| n <= |s| && Whole(s[..n]) {
      SameHeader(s, s[..n]);
    }
  }

  /** Every byte is skipped, in a frame, or left. */
  lemma {:induction false} ScanConserves(s: seq<byte>)
    ensures AllBytes(ScanAll(s).pieces) + ScanAll(s).rest == s
    decreases |s|
  {
    if !Stuck(s) {
      var p, later := First(s), Behind(s);
      ScanStep(s);
      ScanConserves(later);
      FirstThenBehind(s);
      PrependPiece(p, ScanAll(later).pieces, ScanAll(later).rest);
    }
  }

  /** What is left is too little to decide on, and the frames are whole. */
  lemma {:induction false} ScanFinishes(s: seq<byte>)
    ensures Stuck(ScanAll(s).rest) && |ScanAll(s).rest| < LONG_FRAME
    ensures forall f :: f in Frames(ScanAll(s).pieces) ==> Whole(f)
    decreases |s|
  {
    if !Stuck(s) {
      var p, later := First(s), Behind(s);
      ScanStep(s);
      ScanFinishes(later);
      PrependPiece(p, ScanAll(later).pieces, []);
      if p.Frame? {
        FirstIsWhole(s);
      }
    }
  }

  /** What is decided is not changed by bytes that come later. */
  lemma FirstIsStable(s: seq<byte>, t: seq<byte>)
    requires !Stuck(s)
    ensures !Stuck(s + t) && First(s + t) == First(s)
  {
    assert Word(s + t, 4) == Word(s, 4) && Word(s + t, 8) == Word(s, 8);
    if HasHead(s) {
      assert (s + t)[..FrameLength(s)] == s[..FrameLength(s)];
    }
  }

  lemma BehindIsStable(s: seq<byte>, t: seq<byte>)
    requires !Stuck(s)
    ensures !Stuck(s + t) && First(s + t) == First(s) && Behind(s + t) == Behind(s) + t
  {
    FirstIsStable(s, t);
  }

  /** Scanning what has come, then the rest with what comes later, is scanning it all at once. */
  lemma {:induction false} ScanInTwo(s: seq<byte>, t: seq<byte>)
    ensures var a := ScanAll(s);
            var b := ScanAll(a.rest + t);
            ScanAll(s + t) == Scan(a.pieces + b.pieces, b.rest)
    decreases |s|
  {
    if Stuck(s) {
      assert [] + ScanAll(s + t).pieces == ScanAll(s + t).pieces;
    } else {
      var p, u := First(s), Behind(s);
      ScanStep(s);
      BehindIsStable(s, t);
      ScanStep(s + t);
      ScanInTwo(u, t);
      Regroup([p], ScanAll(u).pieces, ScanAll(ScanAll(u).rest + t).pieces);
    }
  }

  lemma Regroup<T>(a: seq<T>, b: seq<T>, c: seq<T>)
    ensures a + (b + c) == (a + b) + c
  {
  }

  function Concat(chunks: seq<seq<byte>>): seq<byte> {
    if chunks == [] then [] else Concat(chunks[..|chunks| - 1]) + chunks[|chunks| - 1]
  }

  /** A scan after every chunk, each starting from what the one before left. */
  function ScanChunks(chunks: seq<seq<byte>>): Scan {
    if chunks == [] then Scan([], [])
    else
      var before := ScanChunks(chunks[..|chunks| - 1]);
      var now := ScanAll(before.rest + chunks[|chunks| - 1]);
      Scan(before.pieces + now.pieces, now.rest)
  }

  /** However the bytes are split, the same frames and skips come out, and the same bytes are left. */
  lemma {:induction false} ChunkingDoesNotMatter(chunks: seq<seq<byte>>)
    ensures ScanChunks(chunks) == ScanAll(Concat(chunks))
  {
    if chunks != [] {
      var before, last := chunks[..|chunks| - 1], chunks[|chunks| - 1];
      ChunkingDoesNotMatter(before);
      ScanInTwo(Concat(before), last);
    }
  }

  lemma {:induction false} FramesConcat(a: seq<Piece>, b: seq<Piece>)
    ensures Frames(a + b) == Frames(a) + Frames(b)
  {
    if a == [] {
      assert a + b == b;
    } else {
      FramesConcat(a[1..], b);
      assert a == [a[0]] + a[1..];
      Regroup([a[0]], a[1..], b);
      PrependPiece(a[0], a[1..], []);
      PrependPiece(a[0], a[1..] + b, []);
      Regroup(if a[0].Frame? then [a[0].bytes] else [], Frames(a[1..]), Frames(b));
    }
  }

  /** With `left` still in the ring and `now` accepted, the scan of everything is on its way. */
  ghost predicate OnTheWay(all: Scan, before: seq<seq<byte>>, left: seq<byte>, now: seq<seq<byte>>) {
    && all.rest == ScanAll(left).rest
    && before + Frames(all.pieces) == now + Frames(ScanAll(left).pieces)
  }

  lemma OneFurther(all: Scan, before: seq<seq<byte>>, left: seq<byte>, now: seq<seq<byte>>)
    requires OnTheWay(all, before, left, now) && !Stuck(left)
    ensures var p := First(left);
            OnTheWay(all, before, Behind(left), now + (if p.Frame? then [p.bytes] else []))
  {
    var p := First(left);
    ScanStep(left);
    PrependPiece(p, ScanAll(Behind(left)).pieces, []);
    Regroup(now, if p.Frame? then [p.bytes] else [], Frames(ScanAll(Behind(left)).pieces));
  }

  lemma Arrived(all: Scan, before: seq<seq<byte>>, left: seq<byte>, now: seq<seq<byte>>)
    requires OnTheWay(all, before, left, now) && Stuck(left)
    ensures left == all.rest && now == before + Frames(all.pieces)
  {
  }

  /** After k chunks, the ring holds what their scans left, and their frames are accepted. */
  ghost predicate Fed(chunks: seq<seq<byte>>, k: nat, left: seq<byte>, before: seq<seq<byte>>, now: seq<seq<byte>>) {
    k <= |chunks| && left == ScanChunks(chunks[..k]).rest && now == before + Frames(ScanChunks(chunks[..k]).pieces)
  }

  /** A chunk that leaves room for a long frame fits behind whatever is left. */
  lemma ShortChunkFits(chunks: seq<seq<byte>>, k: nat, size: nat)
    requires k < |chunks| && |chunks[k]| + LONG_FRAME <= size
    ensures |ScanAll(Concat(chunks[..k])).rest| + |chunks[k]| < size
  {
    ScanFinishes(Concat(chunks[..k]));
  }

  lemma FedOneMore(chunks: seq<seq<byte>>, k: nat, left: seq<byte>, before: seq<seq<byte>>, now: seq<seq<byte>>)
    requires Fed(chunks, k, left, before, now) && k < |chunks|
    ensures var scan := ScanAll(left + chunks[k]);
            Fed(chunks, k + 1, scan.rest, before, now + Frames(scan.pieces))
  {
    ScanOneMore(chunks, k);
    AcceptMore(before, now, ScanChunks(chunks[..k]).pieces, ScanAll(left + chunks[k]).pieces);
  }

  lemma AcceptMore(before: seq<seq<byte>>, now: seq<seq<byte>>, earlier: seq<Piece>, later: seq<Piece>)
    requires now == before + Frames(earlier)
    ensures now + Frames(later) == before + Frames(earlier + later)
  {
    FramesConcat(earlier, later);
  }

  lemma ScanOneMore(chunks: seq<seq<byte>>, k: nat)
    requires k < |chunks|
    ensures var before := ScanChunks(chunks[..k]);
            var scan := ScanAll(before.rest + chunks[k]);
            ScanChunks(chunks[..k + 1]) == Scan(before.pieces + scan.pieces, scan.rest)
  {
    assert chunks[..k + 1][..k] == chunks[..k] && chunks[..k + 1][k] == chunks[k];
  }

  lemma FedAll(chunks: seq<seq<byte>>, left: seq<byte>, before: seq<seq<byte>>, now: seq<seq<byte>>)
    requires Fed(chunks, |chunks|, left, before, now)
    ensures left == ScanAll(Concat(chunks)).rest && now == before + Frames(ScanAll(Concat(chunks)).pieces)
  {
    assert chunks[..|chunks|] == chunks;
    ChunkingDoesNotMatter(chunks);
  }

  // ------------------------------------------------------------------------------------
  // The block
  // ------------------------------------------------------------------------------------

  class AmpAnalysis {
    const ring: ByteRing
    /** The frames reported so far. */
    var accepted: seq<seq<byte>>

    ghost predicate Valid()
      reads this, ring
    {
      ring.Valid()
    }

    constructor (capacity: nat)
      ensures Valid() && fresh(ring) && fresh(ring.buf)
      ensures ring.Contents() == [] && ring.Free() == capacity && accepted == []
    {
      ring := new ByteRing(capacity);
      accepted := [];
    }

    /** Stores what fits of the input and passes all of it on; the call of the scanner is disabled. */
    method Work(input: array<byte>, output: array<byte>, noutputItems: nat) returns (n: nat)
      requires Valid() && input != ring.buf && output != ring.buf && input != output
      requires noutputItems <= input.Length && noutputItems <= output.Length
      modifies ring`pToBuf, ring.buf, output
      ensures Valid() && n == noutputItems && accepted == old(accepted)
      ensures output[..n] == input[..n]
      ensures ring.Contents() == old(ring.Contents()) + input[..Min(noutputItems, old(ring.Free()))]
    {
      var r := ring.BufPut(input, noutputItems);
      ghost var stored := ring.Contents();
      for i := 0 to noutputItems
        invariant output[..i] == input[..i]
        invariant ring.Valid() && ring.Contents() == stored
      {
        output[i] := input[i];
      }
      n := noutputItems;
    }

    method SkipByte(tmp: array<byte>)
      requires Valid() && tmp != ring.buf && tmp.Length == LONG_FRAME
      requires |ring.Contents()| >= HEADER && !HasHead(ring.Contents())
      modifies ring`pFromBuf, tmp
      ensures Valid() && ring.Contents() == Behind(old(ring.Contents())) && accepted == old(accepted)
    {
      var got := ring.BufGet(tmp, 1);
    }

    method TakeFrame(tmp: array<byte>, need: nat)
      requires Valid() && tmp != ring.buf && tmp.Length == LONG_FRAME && |ring.Contents()| >= HEADER
      requires HasHead(ring.Contents()) && need == FrameLength(ring.Contents()) <= |ring.Contents()|
      modifies this`accepted, ring`pFromBuf, tmp
      ensures Valid() && ring.Contents() == Behind(old(ring.Contents()))
      ensures accepted == old(accepted) + [First(old(ring.Contents())).bytes]
    {
      var got := ring.BufGet(tmp, need);
      accepted := accepted + [tmp[..need]];
    }

    /** One turn of the scanner's loop: takes out the next frame or byte, unless it must wait. */
    method DealOne(tmp: array<byte>) returns (more: bool)
      requires Valid() && tmp != ring.buf && tmp.Length == LONG_FRAME
      modifies this`accepted, ring`pFromBuf, tmp
      ensures Valid() && more == !Stuck(old(ring.Contents()))
      ensures !more ==> ring.Contents() == old(ring.Contents()) && accepted == old(accepted)
      ensures more ==> var p := First(old(ring.Contents()));
                && ring.Contents() == Behind(old(ring.Contents()))
                && accepted == old(accepted) + (if p.Frame? then [p.bytes] else [])
    {
      ghost var s := ring.Contents();
      var stored := ring.NBytes();
      if stored < HEADER {
        return false;
      }
      var peeked := ring.BufGetNoDel(tmp, HEADER);
      var seen := tmp[..HEADER];
      SameHeader(seen, s);
      if Word(seen, 4) != HEAD {
        SkipByte(tmp);
        return true;
      }
      var need := HEADER;
      if Word(seen, 8) == LONG_MARK {
        need := LONG_FRAME;
      }
      stored := ring.NBytes();
      if stored < need {
        return false;
      }
      TakeFrame(tmp, need);
      more := true;
    }

    /** Takes every frame that is complete out of the ring, and every byte that cannot start one. */
    method DealUdpMsg()
      requires Valid()
      modifies this`accepted, ring`pFromBuf
      ensures Valid() && ring.Contents() == ScanAll(old(ring.Contents())).rest
      ensures accepted == old(accepted) + Frames(ScanAll(old(ring.Contents())).pieces)
    {
      var tmp := new byte[LONG_FRAME](_ => 0);
      ghost var all, before := ScanAll(ring.Contents()), accepted;
      var more := true;
      while more
        invariant Valid() && ring.buf == old(ring.buf)
        invariant OnTheWay(all, before, ring.Contents(), accepted)
        invariant !more ==> Stuck(ring.Contents())
        modifies this`accepted, ring`pFromBuf, tmp
        decreases |ring.Contents()|, more
      {
        ghost var left, now := ring.Contents(), accepted;
        more := DealOne(tmp);
        if more {
          OneFurther(all, before, left, now);
        }
      }
      Arrived(all, before, ring.Contents(), accepted);
    }

    /** Chunk k, which fits behind what the scans before it left, is put and scanned. */
    method Receive(chunk: array<byte>, ghost values: seq<seq<byte>>, ghost k: nat, ghost before: seq<seq<byte>>)
      requires Valid() && chunk != ring.buf && k < |values| && values[k] == chunk[..]
      requires Fed(values, k, ring.Contents(), before, accepted)
      requires |ScanAll(Concat(values[..k])).rest| + chunk.Length < ring.buf.Length
      modifies this`accepted, ring`pFromBuf, ring`pToBuf, ring.buf
      ensures Valid() && ring.buf == old(ring.buf)
      ensures Fed(values, k + 1, ring.Contents(), before, accepted)
    {
      ChunkingDoesNotMatter(values[..k]);
      FedOneMore(values, k, ring.Contents(), before, accepted);
      var r := ring.BufPut(chunk, chunk.Length);
      assert chunk[..r] == chunk[..];
      DealUdpMsg();
    }

    /** Chunks put and scanned one after the other, each of which fits behind what the scans before it left. */
    method Feed(chunks: seq<array<byte>>)
      requires Valid() && ring.Contents() == []
      requires forall c :: c in chunks ==> c != ring.buf
      requires forall k :: 0 <= k < |chunks| ==>
                 |ScanAll(Concat(Values(chunks)[..k])).rest| + |Values(chunks)[k]| < ring.buf.Length
      modifies this`accepted, ring`pFromBuf, ring`pToBuf, ring.buf
      ensures Valid()
      ensures ring.Contents() == ScanAll(Concat(Values(chunks))).rest
      ensures accepted == old(accepted) + Frames(ScanAll(Concat(Values(chunks))).pieces)
    {
      ghost var values := Values(chunks);
      assert values[..0] == [];
      for k := 0 to |chunks|
        invariant Valid() && ring.buf == old(ring.buf) && Values(chunks) == values
        invariant Fed(values, k, ring.Contents(), old(accepted), accepted)
      {
        assert chunks[k] in chunks && values[k] == chunks[k][..];
        Receive(chunks[k], values, k, old(accepted));
      }
      FedAll(values, ring.Contents(), old(accepted), accepted);
    }
  }

  ghost function Values(chunks: seq<array<byte>>): seq<seq<byte>>
    reads chunks
  {
    seq(|chunks|, i requires 0 <= i < |chunks| reads chunks => chunks[i][..])
  }

  lemma SameHeader(a: seq<byte>, b: seq<byte>)
    requires |a| >= HEADER && |b| >= HEADER && a[..HEADER] == b[..HEADER]
    ensures Word(a, 4) == Word(b, 4) && Word(a, 8) == Word(b, 8)
  {
    forall k | 0 <= k < HEADER ensures a[k] == b[k] {
      assert a[..HEADER][k] == b[..HEADER][k];
    }
  }
}
