/**
 Stream tags of one buffer: a multimap sorted by offset, looked up by the readers, marked as removed
 for one reader at a time, and pruned once every reader is far enough past them.
 */
module Tags {

  /** Offsets are unsigned 64-bit counts. */
  const MODULUS := 0x1_0000_0000_0000_0000

  /** The serial number says which insertion made the entry; the payload is key, value and source. */
  datatype Tag = Tag(serial: nat, offset: nat, payload: int, deleted: set<int>)

  ghost predicate Sorted(ts: seq<Tag>) {
    forall i, j :: 0 <= i < j < |ts| ==> ts[i].offset <= ts[j].offset
  }

  ghost predicate DistinctSerials(ts: seq<Tag>) {
    forall i, j :: 0 <= i < j < |ts| ==> ts[i].serial != ts[j].serial
  }

  function Least(a: nat, b: nat): nat {
    if a <= b then a else b
  }

  function Plus(a: nat, b: nat): nat {
    (a + b) % MODULUS
  }

  /** Unsigned subtraction wraps. */
  function Minus(a: nat, b: nat): (r: nat)
    requires a < MODULUS && b < MODULUS
    ensures r < MODULUS && Plus(r, b) == a
    ensures b <= a ==> r == a - b
    ensures a < b ==> r > a
  {
    if b <= a then a - b else a - b + MODULUS
  }

  // ------------------------------------------------------------------------------------
  // The multimap
  // ------------------------------------------------------------------------------------

  /** After every entry with the same offset. */
  function Insert(ts: seq<Tag>, t: Tag): (r: seq<Tag>)
    ensures |r| == |ts| + 1
    ensures forall x :: x in r <==> x in ts || x == t
  {
    if ts == [] || ts[|ts| - 1].offset <= t.offset then ts + [t]
    else
      assert ts == ts[..|ts| - 1] + [ts[|ts| - 1]];
      Insert(ts[..|ts| - 1], t) + [ts[|ts| - 1]]
  }

  /** r is ts with t in front of entry k: behind an entry at or before t, and before all that are after t. */
  ghost predicate InsertedAt(ts: seq<Tag>, t: Tag, r: seq<Tag>, k: int) {
    && 0 <= k <= |ts| && r == ts[..k] + [t] + ts[k..]
    && (k > 0 ==> ts[k - 1].offset <= t.offset) && forall i :: k <= i < |ts| ==> ts[i].offset > t.offset
  }

  lemma {:induction false} InsertIsBehind(ts: seq<Tag>, t: Tag) returns (k: nat)
    ensures InsertedAt(ts, t, Insert(ts, t), k)
  {
    if ts == [] || ts[|ts| - 1].offset <= t.offset {
      k := |ts|;
    } else {
      var rest, last := ts[..|ts| - 1], ts[|ts| - 1];
      k := InsertIsBehind(rest, t);
      InsertedLonger(rest, last, t, Insert(rest, t), k);
      assert ts == rest + [last];
    }
  }

  lemma InsertedLonger(rest: seq<Tag>, last: Tag, t: Tag, r: seq<Tag>, k: int)
    requires InsertedAt(rest, t, r, k) && last.offset > t.offset
    ensures InsertedAt(rest + [last], t, r + [last], k)
  {
    assert (rest + [last])[k..] == rest[k..] + [last] && (rest + [last])[..k] == rest[..k];
  }

  lemma {:induction false} InsertSorts(ts: seq<Tag>, t: Tag)
    requires Sorted(ts)
    ensures Sorted(Insert(ts, t))
  {
    if ts != [] && ts[|ts| - 1].offset > t.offset {
      var rest, last := ts[..|ts| - 1], ts[|ts| - 1];
      InsertSorts(rest, t);
      forall i | 0 <= i < |Insert(rest, t)| ensures Insert(rest, t)[i].offset <= last.offset {
        assert Insert(rest, t)[i] in Insert(rest, t);
      }
    }
  }

  /** Where the entries at or above x begin. */
  function LowerBound(ts: seq<Tag>, x: nat): (k: nat)
    ensures k <= |ts|
    ensures Sorted(ts) ==> forall i :: 0 <= i < |ts| ==> (i < k <==> ts[i].offset < x)
  {
    if ts == [] then 0
    else if ts[|ts| - 1].offset < x then |ts|
    else LowerBound(ts[..|ts| - 1], x)
  }

  /** Where the entries above x begin. */
  function UpperBound(ts: seq<Tag>, x: nat): (k: nat)
    ensures k <= |ts|
    ensures Sorted(ts) ==> forall i :: 0 <= i < |ts| ==> (i < k <==> ts[i].offset <= x)
  {
    if ts == [] then 0
    else if ts[|ts| - 1].offset <= x then |ts|
    else UpperBound(ts[..|ts| - 1], x)
  }

  // ------------------------------------------------------------------------------------
  // Lookup
  // ------------------------------------------------------------------------------------

  predicate Shows(t: Tag, start: nat, end: nat, delay: nat, id: int) {
    start <= Plus(t.offset, delay) < end && id !in t.deleted
  }

  /** What a reader is handed: the offset in its own count, no marks. */
  function Handed(t: Tag, delay: nat): Tag {
    t.(offset := Plus(t.offset, delay), deleted := {})
  }

  function Visible(ts: seq<Tag>, start: nat, end: nat, delay: nat, id: int): (v: seq<Tag>)
    ensures |v| <= |ts|
  {
    if ts == [] then []
    else
      Visible(ts[..|ts| - 1], start, end, delay, id) +
      (if Shows(ts[|ts| - 1], start, end, delay, id) then [Handed(ts[|ts| - 1], delay)] else [])
  }

  /** One more entry looked at. */
  lemma VisibleOneMore(ts: seq<Tag>, lo: nat, k: nat, start: nat, end: nat, delay: nat, id: int)
    requires lo <= k < |ts|
    ensures Visible(ts[lo..k + 1], start, end, delay, id) ==
            Visible(ts[lo..k], start, end, delay, id) +
            (if Shows(ts[k], start, end, delay, id) then [Handed(ts[k], delay)] else [])
  {
    var more := ts[lo..k + 1];
    assert more[..|more| - 1] == ts[lo..k] && more[|more| - 1] == ts[k];
  }

  /** The walk between the two bounds; it never meets its end when the bounds are crossed. */
  datatype Lookup = Found(tags: seq<Tag>) | RunsOff

  function InRange(ts: seq<Tag>, start: nat, end: nat, delay: nat, id: int): Lookup
    requires start < MODULUS && end < MODULUS && delay < MODULUS
  {
    var lo := LowerBound(ts, Least(start, Minus(start, delay)));
    var hi := UpperBound(ts, Least(end, Minus(end, delay)));
    if lo <= hi then Found(Visible(ts[lo..hi], start, end, delay, id)) else RunsOff
  }

  /** The entry's offset counted from the reader's side, as an unsigned 64-bit sum. */
  ghost predicate HandedFrom(t: Tag, u: Tag, delay: nat) {
    t.serial == u.serial && t.payload == u.payload && t.offset == (u.offset + delay) % MODULUS && t.deleted == {}
  }

  lemma {:induction false} VisibleIsFromTags(ts: seq<Tag>, start: nat, end: nat, delay: nat, id: int)
    ensures forall t :: t in Visible(ts, start, end, delay, id) ==>
              start <= t.offset < end && exists u :: u in ts && id !in u.deleted && HandedFrom(t, u, delay)
    ensures forall u :: u in ts && id !in u.deleted && start <= (u.offset + delay) % MODULUS < end ==>
              exists t :: t in Visible(ts, start, end, delay, id) && HandedFrom(t, u, delay)
  {
    if ts != [] {
      var rest, last := ts[..|ts| - 1], ts[|ts| - 1];
      assert ts == rest + [last];
      VisibleIsFromTags(rest, start, end, delay, id);
      if Shows(last, start, end, delay, id) {
        assert HandedFrom(Handed(last, delay), last, delay);
      }
    }
  }

  /** Whatever a lookup hands over lies in the window and is an unmarked entry in the reader's count, unmarked. */
  lemma InRangeIsFromTags(ts: seq<Tag>, start: nat, end: nat, delay: nat, id: int)
    requires start < MODULUS && end < MODULUS && delay < MODULUS
    ensures InRange(ts, start, end, delay, id).Found? ==>
              forall t :: t in InRange(ts, start, end, delay, id).tags ==>
                start <= t.offset < end && exists u :: u in ts && id !in u.deleted && HandedFrom(t, u, delay)
  {
    var lo := LowerBound(ts, Least(start, Minus(start, delay)));
    var hi := UpperBound(ts, Least(end, Minus(end, delay)));
    if lo <= hi {
      VisibleIsFromTags(ts[lo..hi], start, end, delay, id);
    }
  }

  /** In a plain window a lookup hands over every unmarked entry inside it, in its own count. */
  lemma PlainLookupFindsAll(ts: seq<Tag>, start: nat, end: nat, delay: nat, id: int)
    requires Sorted(ts) && NoWrap(ts, delay) && start <= end < MODULUS && delay < MODULUS
    requires PlainWindow(start, end, delay)
    ensures InRange(ts, start, end, delay, id).Found?
    ensures forall u :: u in ts && id !in u.deleted && start <= (u.offset + delay) % MODULUS < end ==>
              exists t :: t in InRange(ts, start, end, delay, id).tags && HandedFrom(t, u, delay)
  {
    PlainLookup(ts, start, end, delay, id);
    VisibleIsFromTags(ts, start, end, delay, id);
  }

  /** Windows whose lookup bounds mean what they should. */
  predicate PlainWindow(start: nat, end: nat, delay: nat) {
    start == 0 || delay <= start || end < delay || (end == delay && start == 1)
  }

  ghost predicate NoWrap(ts: seq<Tag>, delay: nat) {
    forall t :: t in ts ==> t.offset + delay < MODULUS
  }

  lemma {:induction false} VisibleConcat(a: seq<Tag>, b: seq<Tag>, start: nat, end: nat, delay: nat, id: int)
    ensures Visible(a + b, start, end, delay, id) ==
            Visible(a, start, end, delay, id) + Visible(b, start, end, delay, id)
    decreases |b|
  {
    if b == [] {
      assert a + b == a;
    } else {
      assert (a + b)[..|a + b| - 1] == a + b[..|b| - 1];
      VisibleConcat(a, b[..|b| - 1], start, end, delay, id);
    }
  }

  lemma {:induction false} NoneVisible(ts: seq<Tag>, start: nat, end: nat, delay: nat, id: int)
    requires forall t :: t in ts ==> !Shows(t, start, end, delay, id)
    ensures Visible(ts, start, end, delay, id) == []
  {
    if ts != [] {
      assert forall t :: t in ts[..|ts| - 1] ==> t in ts;
      NoneVisible(ts[..|ts| - 1], start, end, delay, id);
    }
  }

  /** In a plain window, no entry outside the bounds shows, and the bounds do not cross. */
  lemma BoundsArePlain(t: Tag, start: nat, end: nat, delay: nat, id: int)
    requires start <= end < MODULUS && t.offset + delay < MODULUS && delay < MODULUS
    requires PlainWindow(start, end, delay)
    ensures t.offset < Least(start, Minus(start, delay)) ==> t.offset <= Least(end, Minus(end, delay))
    ensures t.offset < Least(start, Minus(start, delay)) ==> !Shows(t, start, end, delay, id)
    ensures t.offset > Least(end, Minus(end, delay)) ==> !Shows(t, start, end, delay, id)
  {
    assert Plus(t.offset, delay) == t.offset + delay;
  }

  lemma PlainLookup(ts: seq<Tag>, start: nat, end: nat, delay: nat, id: int)
    requires Sorted(ts) && NoWrap(ts, delay) && start <= end < MODULUS && delay < MODULUS
    requires PlainWindow(start, end, delay)
    ensures InRange(ts, start, end, delay, id) == Found(Visible(ts, start, end, delay, id))
  {
    var lo := LowerBound(ts, Least(start, Minus(start, delay)));
    var hi := UpperBound(ts, Least(end, Minus(end, delay)));
    forall k | 0 <= k < |ts|
      ensures k < lo ==> k < hi
      ensures k < lo || hi <= k ==> !Shows(ts[k], start, end, delay, id)
    {
      assert ts[k] in ts;
      BoundsArePlain(ts[k], start, end, delay, id);
    }
    if lo > 0 {
      BoundsArePlain(ts[lo - 1], start, end, delay, id);
      assert lo - 1 < hi;
    }
    NoneVisible(ts[..lo], start, end, delay, id);
    NoneVisible(ts[hi..], start, end, delay, id);
    VisibleMiddle(ts, lo, hi, start, end, delay, id);
  }

  lemma VisibleMiddle(ts: seq<Tag>, lo: nat, hi: nat, start: nat, end: nat, delay: nat, id: int)
    requires lo <= hi <= |ts|
    requires Visible(ts[..lo], start, end, delay, id) == [] && Visible(ts[hi..], start, end, delay, id) == []
    ensures Visible(ts, start, end, delay, id) == Visible(ts[lo..hi], start, end, delay, id)
  {
    assert ts[lo..hi] + ts[hi..] == ts[lo..];
    assert ts == ts[..lo] + ts[lo..];
    VisibleConcat(ts[..lo], ts[lo..], start, end, delay, id);
    VisibleConcat(ts[lo..hi], ts[hi..], start, end, delay, id);
  }

  /** The lookup is the plain window on every tag list exactly for these windows. */
  lemma LookupIsPlainExactlyWhen(start: nat, end: nat, delay: nat, id: int)
    requires start <= end < MODULUS && delay < MODULUS - 1
    ensures PlainWindow(start, end, delay) <==>
            forall ts: seq<Tag> :: Sorted(ts) && NoWrap(ts, delay) ==>
              InRange(ts, start, end, delay, id) == Found(Visible(ts, start, end, delay, id))
  {
    if PlainWindow(start, end, delay) {
      forall ts: seq<Tag> | Sorted(ts) && NoWrap(ts, delay)
        ensures InRange(ts, start, end, delay, id) == Found(Visible(ts, start, end, delay, id))
      {
        PlainLookup(ts, start, end, delay, id);
      }
    } else {
      var t := Tag(0, if end == delay then 1 else 0, 0, {});
      var ts := [t];
      assert ts[..0] == [];
      assert Sorted(ts) && NoWrap(ts, delay);
      assert LowerBound(ts, start) == 1;
      if end == delay {
        assert InRange(ts, start, end, delay, id) == RunsOff;
      } else {
        assert Visible(ts, start, end, delay, id) == [Handed(t, delay)];
      }
    }
  }

  // ------------------------------------------------------------------------------------
  // Removal and pruning
  // ------------------------------------------------------------------------------------

  function Marked(t: Tag, offset: nat, payload: int, id: int): Tag {
    if t.offset == offset && t.payload == payload then t.(deleted := t.deleted + {id}) else t
  }

  function MarkAll(ts: seq<Tag>, offset: nat, payload: int, id: int): (r: seq<Tag>) {
    seq(|ts|, i requires 0 <= i < |ts| => Marked(ts[i], offset, payload, id))
  }

  /** An entry is dropped while it lies more than `margin` before the limit. */
  predicate Stale(t: Tag, limit: nat, margin: nat) {
    Plus(t.offset, margin) < limit
  }

  function Prune(ts: seq<Tag>, limit: nat, margin: nat): (r: seq<Tag>) {
    if ts != [] && Stale(ts[0], limit, margin) then Prune(ts[1..], limit, margin) else ts
  }

  lemma {:induction false} PruneDropsStale(ts: seq<Tag>, limit: nat, margin: nat)
    requires Sorted(ts) && NoWrap(ts, margin)
    ensures Sorted(Prune(ts, limit, margin))
    ensures forall t :: t in Prune(ts, limit, margin) <==> t in ts && !(t.offset + margin < limit)
  {
    if ts != [] {
      assert ts[0] in ts;
      PlainSum(ts[0].offset, margin);
      if Stale(ts[0], limit, margin) {
        assert ts == [ts[0]] + ts[1..];
        PruneDropsStale(ts[1..], limit, margin);
      } else {
        forall t | t in ts ensures !(t.offset + margin < limit) {
          var i :| 0 <= i < |ts| && ts[i] == t;
          assert ts[0].offset <= ts[i].offset;
        }
      }
    }
  }

  /** If pruning up to `limit` drops a tag at `offset`, a reader has looked up its item already. */
  predicate DroppedIsLookedUp(offset: nat, limit: nat, margin: nat, delay: nat, looked: nat) {
    offset + margin < limit ==> offset + delay < looked
  }

  /** Pruning up to `limit` is safe for a reader whose lookups have reached `looked`. */
  predicate PruneSpares(limit: nat, margin: nat, delay: nat, looked: nat) {
    limit <= margin || delay + limit <= margin + looked
  }

  /**
   Pruning spares every tag that a reader has yet to look up if and only if the reader's delay is
   within the margin, give or take how far the start of its next window is from the limit.
   */
  lemma PruneIsSafeExactlyWhen(limit: nat, margin: nat, delay: nat, looked: nat)
    ensures PruneSpares(limit, margin, delay, looked) <==>
            forall offset: nat :: DroppedIsLookedUp(offset, limit, margin, delay, looked)
  {
    if !PruneSpares(limit, margin, delay, looked) {
      var offset: nat := limit - 1 - margin;
      assert !DroppedIsLookedUp(offset, limit, margin, delay, looked);
    }
  }

  lemma PlainSum(a: nat, b: nat)
    requires a + b < MODULUS
    ensures Plus(a, b) == a + b
  {
  }
}
