/**
 The circular buffer between one writing block and its readers. It stands for an unbounded stream
 with one cursor a reader; the tags of the stream lie beside it.
 */
module StreamBuffer {
  import opened Rounding
  import opened Tags

  // ------------------------------------------------------------------------------------
  // Circular indices
  // ------------------------------------------------------------------------------------

  lemma SmallMod(a: int, size: nat)
    requires 0 <= a < size
    ensures a % size == a
  {
  }

  lemma WrapMod(a: int, size: nat)
    requires size > 0 && (0 <= a + size < size || 0 <= a - size < size)
    ensures a % size == if a < 0 then a + size else a - size
  {
    if a < 0 {
      DivisionUnique(a, -1, a + size, size);
    } else {
      DivisionUnique(a, 1, a - size, size);
    }
  }

  lemma ShiftMod(a: int, size: nat, q: int)
    requires size > 0
    ensures (a + q * size) % size == a % size
  {
    Distribute(a / size, q, size);
    DivisionUnique(a + q * size, a / size + q, a % size, size);
  }

  /** Adding to a reduced index is adding, then reducing. */
  lemma ModAdd(a: int, b: int, size: nat)
    requires size > 0
    ensures (a % size + b) % size == (a + b) % size
  {
    assert a == a % size + (a / size) * size;
    ShiftMod(a % size + b, size, a / size);
  }

  /** Positions less than a buffer apart never share a cell. */
  lemma CellsDiffer(a: int, b: int, size: nat)
    requires size > 0 && a < b < a + size
    ensures a % size != b % size
  {
    ModAdd(a, b - a, size);
    var r := a % size;
    if r + (b - a) < size {
      SmallMod(r + (b - a), size);
    } else {
      WrapMod(r + (b - a), size);
    }
  }

  function IndexAdd(a: nat, b: nat, size: nat): (s: nat)
    requires a < size && b <= size
    ensures s == (a + b) % size
  {
    var s := a + b;
    if s >= size then
      WrapMod(s, size);
      s - size
    else
      SmallMod(s, size);
      s
  }

  function IndexSub(a: nat, b: nat, size: nat): (s: nat)
    requires a < size && b <= size
    ensures s == (a - b) % size
  {
    var s: int := a - b;
    if s < 0 then
      WrapMod(s, size);
      s + size
    else
      SmallMod(s, size);
      s
  }

  /** The distance from b to a, when it is less than a buffer. */
  lemma DistanceMod(a: int, b: int, size: nat)
    requires size > 0 && 0 <= a - b < size
    ensures (a % size - b % size) % size == a - b
  {
    assert a == a % size + (a / size) * size && b == b % size + (b / size) * size;
    ShiftMod(a % size - b % size, size, a / size - b / size);
    assert a % size - b % size + (a / size - b / size) * size == a - b by {
      assert (a / size - b / size) * size == (a / size) * size - (b / size) * size;
    }
    SmallMod(a - b, size);
  }

  // ------------------------------------------------------------------------------------
  // The stream
  // ------------------------------------------------------------------------------------

  /** Position k of the stream; nothing but zeros lies before its start. */
  ghost function At<T>(stream: seq<T>, zero: T, k: int): T {
    if 0 <= k < |stream| then stream[k] else zero
  }

  datatype BufferReader = BufferReader(readIndex: nat, absRead: nat, delay: nat)

  /** Positions from |stream| - kept on are in their cells, and what is not yet counted follows. */
  ghost predicate Holds<T>(cells: seq<T>, stream: seq<T>, zero: T, kept: nat, pending: seq<T>) {
    && kept + |pending| <= |cells|
    && (forall k: int :: |stream| - kept <= k < |stream| ==> cells[k % |cells|] == At(stream, zero, k))
    && (forall i: nat :: i < |pending| ==> cells[(|stream| + i) % |cells|] == pending[i])
  }

  /** n cells from an index on, going round. */
  ghost function Circular<T>(cells: seq<T>, from: nat, n: nat): (s: seq<T>)
    requires |cells| > 0
    ensures |s| == n
  {
    seq(n, i => cells[(from + i) % |cells|])
  }

  /**
   A reader at position `start` plus what it has read. What it has not read lies in the cells, from
   position `sound` on; a reader that joined late may have missed what is before that.
   */
  ghost predicate ReaderFits<T>(r: BufferReader, start: int, sound: int, stream: seq<T>, size: nat, kept: nat) {
    && size > 0
    && 0 <= |stream| - (start + r.absRead) < size
    && (|stream| - (start + r.absRead) <= kept || |stream| - sound <= kept)
    && r.readIndex == (start + r.absRead) % size
  }

  /** What a reader was given: its items of the stream from its start on, as far as they are sound. */
  ghost predicate Given<T>(items: seq<T>, r: BufferReader, start: int, sound: int, stream: seq<T>, zero: T) {
    && |items| == r.absRead
    && forall i :: 0 <= i < |items| && sound <= start + i ==> items[i] == At(stream, zero, start + i)
  }

  /** The next cells of a reader hold its next items of the stream. */
  lemma CellsAreItems<T>(cells: seq<T>, r: BufferReader, start: int, sound: int, stream: seq<T>, zero: T, kept: nat,
                         pending: seq<T>, n: nat)
    requires Holds(cells, stream, zero, kept, pending) && ReaderFits(r, start, sound, stream, |cells|, kept)
    requires n <= |stream| - (start + r.absRead)
    ensures forall i :: 0 <= i < n && sound <= start + r.absRead + i ==>
              Circular(cells, r.readIndex, n)[i] == At(stream, zero, start + r.absRead + i)
  {
    var pos := start + r.absRead;
    forall i | 0 <= i < n && sound <= pos + i ensures Circular(cells, r.readIndex, n)[i] == At(stream, zero, pos + i) {
      ModAdd(pos, i, |cells|);
      assert cells[(pos + i) % |cells|] == At(stream, zero, pos + i);
    }
  }

  /** The read index after n more items. */
  lemma MovedIndex(index: nat, pos: int, n: nat, size: nat)
    requires index < size && n <= size && index == pos % size
    ensures IndexAdd(index, n, size) == (pos + n) % size
  {
    ModAdd(pos, n, size);
  }

  /** What was given, and then the next items, is what was given in the end. */
  lemma GivenMore<T>(items: seq<T>, next: seq<T>, r: BufferReader, moved: BufferReader, start: int, sound: int,
                     stream: seq<T>, zero: T)
    requires Given(items, r, start, sound, stream, zero) && moved.absRead == r.absRead + |next|
    requires forall i :: 0 <= i < |next| && sound <= start + r.absRead + i ==>
             next[i] == At(stream, zero, start + r.absRead + i)
    ensures Given(items + next, moved, start, sound, stream, zero)
  {
    forall i | 0 <= i < moved.absRead && sound <= start + i ensures (items + next)[i] == At(stream, zero, start + i) {
      if i >= r.absRead {
        var j := i - r.absRead;
        assert next[j] == At(stream, zero, start + r.absRead + j);
      }
    }
  }

  /** Giving a reader its next cells and moving it past them keeps what it was given right. */
  lemma MovedReader<T>(cells: seq<T>, r: BufferReader, start: int, sound: int, stream: seq<T>, zero: T, kept: nat,
                       pending: seq<T>, items: seq<T>, n: nat)
    requires Holds(cells, stream, zero, kept, pending) && ReaderFits(r, start, sound, stream, |cells|, kept)
    requires Given(items, r, start, sound, stream, zero) && n <= |stream| - (start + r.absRead)
    requires r.readIndex < |cells|
    ensures var moved := BufferReader(IndexAdd(r.readIndex, n, |cells|), r.absRead + n, r.delay);
            && ReaderFits(moved, start, sound, stream, |cells|, kept)
            && Given(items + Circular(cells, r.readIndex, n), moved, start, sound, stream, zero)
  {
    CellsAreItems(cells, r, start, sound, stream, zero, kept, pending, n);
    MovedIndex(r.readIndex, start + r.absRead, n, |cells|);
    var moved := BufferReader(IndexAdd(r.readIndex, n, |cells|), r.absRead + n, r.delay);
    GivenMore(items, Circular(cells, r.readIndex, n), r, moved, start, sound, stream, zero);
  }

  lemma CountedIsHeld<T>(cells: seq<T>, stream: seq<T>, zero: T, kept: nat, pending: seq<T>, n: nat)
    requires |cells| > 0 && Holds(cells, stream, zero, kept, pending) && n <= |pending|
    ensures Holds(cells, stream + pending[..n], zero, kept + n, pending[n..])
  {
    var longer := stream + pending[..n];
    forall k: int | |longer| - (kept + n) <= k < |longer| ensures cells[k % |cells|] == At(longer, zero, k) {
      if k < |stream| {
        assert At(longer, zero, k) == At(stream, zero, k);
      } else {
        var i: nat := k - |stream|;
        assert cells[(|stream| + i) % |cells|] == pending[i];
      }
    }
    forall i: nat | i < |pending[n..]| ensures cells[(|longer| + i) % |cells|] == pending[n..][i] {
      var j: nat := n + i;
      assert cells[(|stream| + j) % |cells|] == pending[j];
    }
  }

  lemma LongerKeepsReader<T>(r: BufferReader, start: int, sound: int, stream: seq<T>, zero: T, size: nat, kept: nat,
                             items: seq<T>, more: seq<T>)
    requires ReaderFits(r, start, sound, stream, size, kept) && Given(items, r, start, sound, stream, zero)
    requires |stream| - (start + r.absRead) + |more| < size
    ensures ReaderFits(r, start, sound, stream + more, size, kept + |more|)
    ensures Given(items, r, start, sound, stream + more, zero)
  {
    forall i | 0 <= i < |items| && sound <= start + i ensures items[i] == At(stream + more, zero, start + i) {
      assert items[i] == At(stream, zero, start + i);
    }
  }

  class Buffer<T> {
    const size: nat
    const zero: T
    var data: array<T>
    var writeIndex: nat
    var absWritten: nat
    var done: bool
    var readers: seq<BufferReader>
    var tags: seq<Tag>
    var maxReaderDelay: nat
    var lastMinRead: nat

    /** All items ever counted, where each reader started, and all items each reader was given. */
    ghost var stream: seq<T>
    ghost var starts: seq<int>
    /** From where on each reader's view is sound: nothing was lost to it if that is not past its start. */
    ghost var sounds: seq<int>
    ghost var given: seq<seq<T>>
    /** Written at the write pointer but not counted yet. */
    ghost var pending: seq<T>
    ghost var kept: nat

    ghost predicate Valid()
      reads this, data
    {
      && size > 0 && data.Length == size
      && absWritten == |stream| && writeIndex == |stream| % size
      && Holds(data[..], stream, zero, kept, pending)
      && |starts| == |sounds| == |given| == |readers|
      && (forall r :: 0 <= r < |readers| ==> ReaderOk(r))
    }

    ghost predicate ReaderOk(r: nat)
      requires r < |readers| && |starts| == |sounds| == |given| == |readers|
      reads this
    {
      && ReaderFits(readers[r], starts[r], sounds[r], stream, size, kept)
      && Given(given[r], readers[r], starts[r], sounds[r], stream, zero)
      && |stream| - (starts[r] + readers[r].absRead) + |pending| < size
    }

    /** Preload plus written less read. */
    ghost function Unread(r: nat): int
      requires r < |readers| && |starts| == |readers|
      reads this
    {
      |stream| - starts[r] - readers[r].absRead
    }

    constructor (size: nat, zero: T)
      requires size > 0
      ensures Valid() && fresh(data) && this.size == size && this.zero == zero
      ensures stream == [] && readers == [] && tags == [] && pending == [] && kept == size && !done
    {
      this.size, this.zero := size, zero;
      data := new T[size](_ => zero);
      writeIndex, absWritten, done := 0, 0, false;
      readers, tags, maxReaderDelay, lastMinRead := [], [], 0, 0;
      stream, starts, sounds, given, pending, kept := [], [], [], [], [], size;
    }

    /**
     Joins a reader `preload` items back; no work is in flight, so what was written and not counted
     is forgotten. A preload of a whole buffer counts as none. The margin for pruning tags is reset
     to the new reader's delay alone.
     */
    method AddReader(preload: int, delay: nat) returns (ok: bool)
      requires Valid() && preload <= size
      modifies this`readers, this`starts, this`sounds, this`given, this`pending, this`maxReaderDelay
      ensures Valid() && ok == (preload >= 0)
      ensures !ok ==> readers == old(readers) && maxReaderDelay == old(maxReaderDelay)
      ensures ok ==> |readers| == |old(readers)| + 1 && readers[..|old(readers)|] == old(readers)
      ensures ok ==> starts == old(starts) + [|stream| - preload % size] && given == old(given) + [[]]
      ensures ok ==> sounds == old(sounds) + [|stream| - kept]
      ensures ok ==> readers[|old(readers)|].absRead == 0 && maxReaderDelay == delay
      ensures ok ==> Unread(|old(readers)|) == preload % size
    {
      if preload < 0 {
        return false;
      }
      var back := IndexSub(writeIndex, preload, size);
      BackMod(|stream|, preload, size);
      var r := BufferReader(back, 0, delay);
      readers := readers + [r];
      starts := starts + [|stream| - preload % size];
      sounds := sounds + [|stream| - kept];
      given := given + [[]];
      pending := [];
      maxReaderDelay := delay;
      assert ReaderFits(r, |stream| - preload % size, |stream| - kept, stream, size, kept);
      forall k | 0 <= k < |old(readers)| ensures ReaderOk(k) {
        assert old(ReaderOk(k));
      }
      ok := true;
    }

    /** Exactly what the reader has yet to be given. */
    method ItemsAvailable(r: nat) returns (n: nat)
      requires Valid() && r < |readers|
      ensures n == Unread(r)
    {
      assert ReaderOk(r);
      n := IndexSub(writeIndex, readers[r].readIndex, size);
      DistanceMod(|stream|, starts[r] + readers[r].absRead, size);
    }

    /** The room the slowest reader leaves, less one; forgets tags once every reader moved on. */
    method SpaceAvailable() returns (n: nat)
      requires Valid()
      modifies this`tags, this`lastMinRead
      ensures Valid()
      ensures readers == [] ==> n == size - 1 && tags == old(tags) && lastMinRead == old(lastMinRead)
      ensures forall r :: 0 <= r < |readers| ==> n + Unread(r) <= size - 1
      ensures readers != [] ==> exists r :: 0 <= r < |readers| && Unread(r) == size - 1 - n
      ensures readers != [] ==> exists r :: 0 <= r < |readers| && readers[r].absRead == lastMinRead
      ensures forall r :: 0 <= r < |readers| ==> lastMinRead <= readers[r].absRead
      ensures readers != [] ==> tags == if lastMinRead != old(lastMinRead)
                then Prune(old(tags), old(lastMinRead), maxReaderDelay + size) else old(tags)
    {
      if readers == [] {
        return size - 1;
      }
      var mostData, minRead := Slowest();
      ghost var slow :| 0 <= slow < |readers| && Unread(slow) == mostData;
      ghost var behind :| 0 <= behind < |readers| && readers[behind].absRead == minRead;
      if minRead != lastMinRead {
        PruneTags(lastMinRead);
        lastMinRead := minRead;
      }
      n := size - mostData - 1;
      forall r | 0 <= r < |readers| ensures ReaderOk(r) {
        assert old(ReaderOk(r));
      }
      assert Unread(slow) == size - 1 - n && readers[behind].absRead == lastMinRead;
    }

    /** The most unread items of any reader, and the fewest items any reader has read. */
    method Slowest() returns (mostData: nat, minRead: nat)
      requires Valid() && readers != []
      ensures mostData < size
      ensures forall r :: 0 <= r < |readers| ==> Unread(r) <= mostData && minRead <= readers[r].absRead
      ensures exists r :: 0 <= r < |readers| && Unread(r) == mostData
      ensures exists r :: 0 <= r < |readers| && readers[r].absRead == minRead
    {
      mostData := ItemsAvailable(0);
      minRead := readers[0].absRead;
      ghost var most, least := 0, 0;
      for i := 1 to |readers|
        invariant 0 <= most < i && mostData == Unread(most) && 0 <= least < i && minRead == readers[least].absRead
        invariant forall r :: 0 <= r < i ==> Unread(r) <= mostData && minRead <= readers[r].absRead
      {
        var a := ItemsAvailable(i);
        if mostData < a {
          mostData, most := a, i;
        }
        if readers[i].absRead < minRead {
          minRead, least := readers[i].absRead, i;
        }
      }
      assert ReaderOk(most);
    }

    /** The block's work fills the write pointer; the double mapping lets it run past the end. */
    method Fill(items: seq<T>)
      requires Valid() && forall r :: 0 <= r < |readers| ==> |items| + Unread(r) <= size - 1
      requires |items| <= size
      modifies data, this`pending, this`kept
      ensures Valid() && data == old(data) && pending == items
      ensures kept == Least(old(kept), size - |items|)
    {
      pending := [];
      kept := Least(kept, size - |items|);
      var i := 0;
      while i < |items|
        invariant i <= |items|
        invariant Holds(data[..], stream, zero, kept, items[..i])
        modifies data
      {
        ghost var before := data[..];
        var cell := IndexAdd(writeIndex, i, size);
        ModAdd(|stream|, i, size);
        data[cell] := items[i];
        StoreOne(before, data[..], stream, zero, kept, items, i);
        i := i + 1;
      }
      assert items[..i] == items;
      pending := items;
      forall r | 0 <= r < |readers| ensures ReaderOk(r) {
        assert old(ReaderOk(r));
        assert |items| + old(Unread(r)) <= size - 1;
      }
    }

    /** Counts the first n items filled in: they are the next items of the stream. */
    method UpdateWritePointer(n: nat)
      requires Valid() && n <= |pending|
      modifies this`writeIndex, this`absWritten, this`stream, this`pending, this`kept
      ensures Valid() && stream == old(stream) + old(pending)[..n] && pending == old(pending)[n..]
      ensures kept == old(kept) + n
    {
      CountedIsHeld(data[..], stream, zero, kept, pending, n);
      ReadersFollow(n);
      ModAdd(|stream|, n, size);
      writeIndex := IndexAdd(writeIndex, n, size);
      absWritten := absWritten + n;
      stream, pending, kept := stream + pending[..n], pending[n..], kept + n;
    }

    lemma ReadersFollow(n: nat)
      requires Valid() && n <= |pending|
      ensures forall r :: 0 <= r < |readers| ==>
                && ReaderFits(readers[r], starts[r], sounds[r], stream + pending[..n], size, kept + n)
                && Given(given[r], readers[r], starts[r], sounds[r], stream + pending[..n], zero)
                && |stream + pending[..n]| - (starts[r] + readers[r].absRead) + |pending[n..]| < size
    {
      forall r | 0 <= r < |readers|
        ensures ReaderFits(readers[r], starts[r], sounds[r], stream + pending[..n], size, kept + n)
        ensures Given(given[r], readers[r], starts[r], sounds[r], stream + pending[..n], zero)
        ensures |stream + pending[..n]| - (starts[r] + readers[r].absRead) + |pending[n..]| < size
      {
        assert ReaderOk(r);
        LongerKeepsReader(readers[r], starts[r], sounds[r], stream, zero, size, kept, given[r], pending[..n]);
      }
    }

    method SetDone(value: bool)
      modifies this`done
      ensures done == value
    {
      done := value;
    }

    /** The cells at the read pointer hold the reader's next items of the stream. */
    method ReadItems(r: nat, n: nat) returns (items: seq<T>)
      requires Valid() && r < |readers| && n <= Unread(r)
      ensures items == Circular(data[..], readers[r].readIndex, n)
      ensures forall i :: 0 <= i < n && sounds[r] <= starts[r] + readers[r].absRead + i ==>
                items[i] == At(stream, zero, starts[r] + readers[r].absRead + i)
    {
      assert ReaderOk(r);
      items := [];
      for i := 0 to n
        invariant items == Circular(data[..], readers[r].readIndex, i)
      {
        var cell := IndexAdd(readers[r].readIndex, i, size);
        items := items + [data[cell]];
      }
      CellsAreItems(data[..], readers[r], starts[r], sounds[r], stream, zero, kept, pending, n);
    }

    /** The reader has now been given what the next n cells hold: its next items of the stream. */
    method UpdateReadPointer(r: nat, n: nat)
      requires Valid() && r < |readers| && n <= Unread(r)
      modifies this`readers, this`given
      ensures Valid() && |readers| == |old(readers)|
      ensures readers == old(readers)[r :=
                BufferReader(readers[r].readIndex, old(readers)[r].absRead + n, old(readers)[r].delay)]
      ensures Unread(r) == old(Unread(r)) - n
      ensures given == old(given)[r := old(given)[r] + Circular(data[..], old(readers)[r].readIndex, n)]
    {
      assert ReaderOk(r);
      var x := readers[r];
      MovedReader(data[..], x, starts[r], sounds[r], stream, zero, kept, pending, given[r], n);
      var moved := IndexAdd(x.readIndex, n, size);
      readers := readers[r := x.(readIndex := moved, absRead := x.absRead + n)];
      given := given[r := given[r] + Circular(data[..], x.readIndex, n)];
      forall k | 0 <= k < |readers| ensures ReaderOk(k) {
        assert old(ReaderOk(k));
      }
    }

    /**
     What a reader that joined at the start found in the cells, over all its reads, is its preload of
     zeros and then the stream, in order.
     */
    lemma SeesPreloadThenStream(r: nat)
      requires Valid() && r < |readers| && sounds[r] <= starts[r] <= 0
      ensures readers[r].absRead <= -starts[r] + |stream|
      ensures given[r] == (seq(-starts[r], _ => zero) + stream)[..readers[r].absRead]
    {
      assert ReaderOk(r);
    }

    method AddItemTag(t: Tag)
      modifies this`tags
      ensures tags == Insert(old(tags), t)
      ensures exists k :: InsertedAt(old(tags), t, tags, k)
    {
      var k := |tags|;
      assert tags[..k] == tags && tags[k..] == [];
      while k > 0 && tags[k - 1].offset > t.offset
        invariant 0 <= k <= |tags|
        invariant Insert(tags, t) == Insert(tags[..k], t) + tags[k..]
      {
        assert tags[..k][..k - 1] == tags[..k - 1] && [tags[k - 1]] + tags[k..] == tags[k - 1..];
        k := k - 1;
      }
      tags := tags[..k] + [t] + tags[k..];
      ghost var at := InsertIsBehind(old(tags), t);
    }

    /** Marks, for one block, every entry with this offset and payload. */
    method RemoveItemTag(offset: nat, payload: int, id: int)
      requires Sorted(tags)
      modifies this`tags
      ensures tags == MarkAll(old(tags), offset, payload, id)
      ensures |tags| == |old(tags)| && forall i :: 0 <= i < |tags| ==>
                var was := old(tags)[i];
                tags[i] == Tag(was.serial, was.offset, was.payload,
                  if was.offset == offset && was.payload == payload then was.deleted + {id} else was.deleted)
    {
      ghost var first := tags;
      var k, end := LowerBound(tags, offset), UpperBound(tags, offset);
      while k < end
        invariant |tags| == |first|
        invariant LowerBound(first, offset) <= k && end == UpperBound(first, offset)
        invariant forall i :: 0 <= i < |first| ==>
                  tags[i] == if i < k then Marked(first[i], offset, payload, id) else first[i]
      {
        if tags[k].payload == payload {
          tags := tags[k := tags[k].(deleted := tags[k].deleted + {id})];
        }
        k := k + 1;
      }
    }

    method PruneTags(maxTime: nat)
      modifies this`tags
      ensures tags == Prune(old(tags), maxTime, maxReaderDelay + size)
    {
      while tags != []
        invariant Prune(old(tags), maxTime, maxReaderDelay + size) == Prune(tags, maxTime, maxReaderDelay + size)
        decreases |tags|
      {
        if Stale(tags[0], maxTime, maxReaderDelay + size) {
          tags := tags[1..];
        } else {
          break;
        }
      }
    }

    /** The tags of a window, in the reader's own count. */
    method GetTagsInRange(r: nat, start: nat, end: nat, id: int) returns (found: Lookup)
      requires r < |readers| && start < MODULUS && end < MODULUS && readers[r].delay < MODULUS
      ensures found == InRange(tags, start, end, readers[r].delay, id)
      ensures found.Found? ==> forall t :: t in found.tags ==>
                && start <= t.offset < end
                && exists u :: u in tags && id !in u.deleted && HandedFrom(t, u, readers[r].delay)
    {
      found := Walk(start, end, readers[r].delay, id);
      InRangeIsFromTags(tags, start, end, readers[r].delay, id);
    }

    /** The walk between the two bounds; crossed bounds are never met by it. */
    method Walk(start: nat, end: nat, delay: nat, id: int) returns (found: Lookup)
      requires start < MODULUS && end < MODULUS && delay < MODULUS
      ensures found == InRange(tags, start, end, delay, id)
    {
      var k := LowerBound(tags, Least(start, Minus(start, delay)));
      var stop := UpperBound(tags, Least(end, Minus(end, delay)));
      ghost var lo := k;
      if k > stop {
        return RunsOff;
      }
      var v := [];
      while k != stop
        invariant lo <= k <= stop && v == Visible(tags[lo..k], start, end, delay, id)
        decreases stop - k
      {
        VisibleOneMore(tags, lo, k, start, end, delay, id);
        var itemTime := Plus(tags[k].offset, delay);
        if itemTime >= start && itemTime < end {
          if id !in tags[k].deleted {
            v := v + [tags[k].(offset := itemTime, deleted := {})];
          }
        }
        k := k + 1;
      }
      found := Found(v);
    }
  }

  lemma BackMod(w: nat, preload: nat, size: nat)
    requires size > 0 && preload <= size
    ensures (w % size - preload) % size == (w - preload % size) % size
  {
    ModAdd(w, 0 - preload, size);
    if preload == size {
      WrapMod(preload, size);
      ShiftMod(w - size, size, 1);
    } else {
      SmallMod(preload, size);
    }
  }

  lemma StoreOne<T>(before: seq<T>, after: seq<T>, stream: seq<T>, zero: T, kept: nat, items: seq<T>, i: nat)
    requires |before| == |after| > 0 && i < |items| && kept + |items| <= |before|
    requires Holds(before, stream, zero, kept, items[..i])
    requires after == before[(|stream| + i) % |before| := items[i]]
    ensures Holds(after, stream, zero, kept, items[..i + 1])
  {
    var size := |before|;
    forall k: int | |stream| - kept <= k < |stream| ensures after[k % size] == At(stream, zero, k) {
      CellsDiffer(k, |stream| + i, size);
      assert before[k % size] == At(stream, zero, k);
    }
    var fewer, more := items[..i], items[..i + 1];
    forall j: nat | j < |more| ensures after[(|stream| + j) % size] == more[j] {
      if j < i {
        CellsDiffer(|stream| + j, |stream| + i, size);
        assert before[(|stream| + j) % size] == fewer[j];
      }
    }
  }
}
