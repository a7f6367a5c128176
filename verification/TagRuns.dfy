/**
 Every run of one buffer's tags. Readers begin work, move their pointer during it, and look their
 window up after it; the writer's thread may add and prune tags at any point in between.
 */
module TagRuns {
  import opened Tags

  // ------------------------------------------------------------------------------------
  // State and events
  // ------------------------------------------------------------------------------------

  /** `start` is where the pointer stood when the work that is under way began. */
  datatype Reader = Reader(read: nat, start: nat, working: bool, delay: nat, id: int, preload: nat)

  /** `room` is what the last space_available found, less what was written since. */
  datatype Store =
    Store(tags: seq<Tag>, readers: seq<Reader>, lastMin: nat, maxDelay: nat, size: nat, written: nat, room: int)

  /** An insertion: the tag, and how far every reader's lookups had come by then. */
  datatype Birth = Birth(offset: nat, payload: int, seen: seq<nat>)

  /** What has happened: insertions by serial number, removals in time, and what readers were handed. */
  datatype History = History(births: seq<Birth>, dropped: set<(nat, nat)>, delivered: seq<seq<nat>>)

  datatype Event =
    | Add(offset: nat, payload: int)
    | Remove(offset: nat, payload: int, id: int)
    | Space
    | Write(count: nat)
    | Begin(reader: nat)
    | Move(reader: nat, count: nat)
    | Look(reader: nat)

  function Margin(s: Store): nat {
    s.maxDelay + s.size
  }

  /** How far a reader's lookups have come: the start of the window it has yet to look up. */
  function Looked(x: Reader): nat {
    if x.working then x.start else x.read
  }

  function AllLooked(rs: seq<Reader>): seq<nat> {
    seq(|rs|, i requires 0 <= i < |rs| => Looked(rs[i]))
  }

  function MinRead(rs: seq<Reader>): (m: nat)
    requires rs != []
    ensures forall r :: r in rs ==> m <= r.read
    ensures exists r :: r in rs && m == r.read
  {
    if |rs| == 1 then rs[0].read
    else
      assert rs == rs[..|rs| - 1] + [rs[|rs| - 1]];
      var m := MinRead(rs[..|rs| - 1]);
      assert exists r :: r in rs[..|rs| - 1] && m == r.read;
      assert rs[|rs| - 1] in rs;
      Least(m, rs[|rs| - 1].read)
  }

  function Unread(x: Reader, written: nat): int {
    x.preload + written - x.read
  }

  function MostUnread(rs: seq<Reader>, written: nat): (m: int)
    requires rs != []
    ensures forall r :: r in rs ==> Unread(r, written) <= m
    ensures exists r :: r in rs && m == Unread(r, written)
  {
    if |rs| == 1 then Unread(rs[0], written)
    else
      assert rs == rs[..|rs| - 1] + [rs[|rs| - 1]];
      var m, last := MostUnread(rs[..|rs| - 1], written), rs[|rs| - 1];
      assert exists r :: r in rs[..|rs| - 1] && m == Unread(r, written);
      assert last in rs;
      if m < Unread(last, written) then Unread(last, written) else m
  }

  function Serials(ts: seq<Tag>): seq<nat> {
    seq(|ts|, i requires 0 <= i < |ts| => ts[i].serial)
  }

  /** No count made from this offset wraps. */
  predicate Small(s: Store, offset: nat) {
    offset + Margin(s) < MODULUS && forall i :: 0 <= i < |s.readers| ==> offset + s.readers[i].delay < MODULUS
  }

  /**
   Events the theorems speak of: no count wraps, a work moves the pointer by less than a buffer in
   all, and the windows are ones in which a lookup is plain.
   */
  predicate Enabled(s: Store, e: Event) {
    match e
    case Add(offset, _) => Small(s, offset)
    case Remove(_, _, _) => true
    case Space => s.readers != []
    case Write(_) => true
    case Begin(r) => r < |s.readers| && !s.readers[r].working
    case Move(r, n) =>
      && r < |s.readers| && s.readers[r].working && s.readers[r].read + n < MODULUS
      && s.readers[r].read + n < s.readers[r].start + s.size
    case Look(r) =>
      && r < |s.readers| && s.readers[r].working
      && PlainWindow(s.readers[r].start, s.readers[r].read, s.readers[r].delay)
  }

  /** What a buffer admits: writing within the room found last, and reading what is there. */
  predicate Admits(s: Store, e: Event)
    requires Enabled(s, e)
  {
    match e
    case Write(n) => n <= s.room
    case Move(r, n) => n <= Unread(s.readers[r], s.written)
    case _ => true
  }

  /** Counts fit, and the pointers are where work and space_available left them. */
  ghost predicate PointersOk(s: Store) {
    && s.size > 0 && Margin(s) < MODULUS
    && (forall i :: 0 <= i < |s.readers| ==>
          && s.readers[i].start <= s.readers[i].read < MODULUS && s.readers[i].delay < MODULUS
          && (s.readers[i].working ==> s.readers[i].read < s.readers[i].start + s.size)
          && s.lastMin <= s.readers[i].read)
  }

  function Next(s: Store, e: Event, births: nat): Store
    requires Enabled(s, e)
  {
    match e
    case Add(offset, payload) => s.(tags := Insert(s.tags, Tag(births, offset, payload, {})))
    case Remove(offset, payload, id) => s.(tags := MarkAll(s.tags, offset, payload, id))
    case Space =>
      var room := s.size - MostUnread(s.readers, s.written) - 1;
      if MinRead(s.readers) != s.lastMin
      then s.(tags := Prune(s.tags, s.lastMin, Margin(s)), lastMin := MinRead(s.readers), room := room)
      else s.(room := room)
    case Write(n) => s.(written := s.written + n, room := s.room - n)
    case Begin(r) => s.(readers := s.readers[r := s.readers[r].(start := s.readers[r].read, working := true)])
    case Move(r, n) => s.(readers := s.readers[r := s.readers[r].(read := s.readers[r].read + n)])
    case Look(r) => s.(readers := s.readers[r := s.readers[r].(working := false)])
  }

  /** A birth whose item reader r has yet to look up, and had yet to look up at the insertion. */
  predicate Awaits(s: Store, b: Birth, r: nat)
    requires r < |s.readers| && r < |b.seen|
  {
    b.seen[r] <= b.offset + s.readers[r].delay && Looked(s.readers[r]) <= b.offset + s.readers[r].delay
  }

  /** Removals that reach reader r before it looks the tag up. */
  function NewlyDropped(s: Store, h: History, offset: nat, payload: int, id: int): set<(nat, nat)> {
    set r, k | 0 <= r < |s.readers| && 0 <= k < |h.births| && r < |h.births[k].seen| && s.readers[r].id == id
               && h.births[k].offset == offset && h.births[k].payload == payload && Awaits(s, h.births[k], r) :: (r, k)
  }

  /** The lookup of everything reader r has moved past since its work began. */
  function LookedUp(s: Store, r: nat): Lookup
    requires r < |s.readers|
    requires s.readers[r].start < MODULUS && s.readers[r].read < MODULUS && s.readers[r].delay < MODULUS
  {
    var x := s.readers[r];
    InRange(s.tags, x.start, x.read, x.delay, x.id)
  }

  function HandedOver(h: History, r: nat, found: Lookup): History
    requires r < |h.delivered|
  {
    if found.RunsOff? then h else h.(delivered := h.delivered[r := h.delivered[r] + Serials(found.tags)])
  }

  ghost function Recorded(s: Store, e: Event, h: History): History
    requires Enabled(s, e) && PointersOk(s) && |h.delivered| == |s.readers|
  {
    match e
    case Add(offset, payload) => h.(births := h.births + [Birth(offset, payload, AllLooked(s.readers))])
    case Remove(offset, payload, id) => h.(dropped := h.dropped + NewlyDropped(s, h, offset, payload, id))
    case Look(r) => HandedOver(h, r, LookedUp(s, r))
    case _ => h
  }

  lemma PointersStay(s: Store, e: Event, births: nat)
    requires Enabled(s, e) && PointersOk(s)
    ensures PointersOk(Next(s, e, births)) && |Next(s, e, births).readers| == |s.readers|
  {
    if e.Space? {
      forall i | 0 <= i < |s.readers| ensures MinRead(s.readers) <= s.readers[i].read {
        assert s.readers[i] in s.readers;
      }
    }
  }

  // ------------------------------------------------------------------------------------
  // Exactly once
  // ------------------------------------------------------------------------------------

  /** The multimap holds distinct insertions, in order of offset. */
  ghost predicate TagsOk(s: Store, h: History) {
    && Sorted(s.tags) && DistinctSerials(s.tags)
    && (forall t :: t in s.tags ==> TagOk(s, h, t))
  }

  ghost predicate TagOk(s: Store, h: History, t: Tag) {
    && t.serial < |h.births|
    && t.offset == h.births[t.serial].offset && t.payload == h.births[t.serial].payload
    && Small(s, t.offset)
  }

  ghost predicate BirthsOk(s: Store, h: History) {
    && PointersOk(s) && |h.delivered| == |s.readers|
    && (forall k :: 0 <= k < |h.births| ==> |h.births[k].seen| == |s.readers|)
    && (forall k, r :: 0 <= k < |h.births| && 0 <= r < |s.readers| ==> h.births[k].seen[r] <= Looked(s.readers[r]))
    && (forall r, k :: 0 <= r < |s.readers| && k in h.delivered[r] ==> k < |h.births|)
    && (forall p :: p in h.dropped ==> p.1 < |h.births|)
  }

  /** A tag that reader r awaits is in the multimap, marked for r exactly if a removal reached it. */
  ghost predicate Held(s: Store, h: History, r: nat, k: nat)
    requires BirthsOk(s, h) && r < |s.readers| && k < |h.births|
  {
    Awaits(s, h.births[k], r) ==>
      exists t :: t in s.tags && t.serial == k && (s.readers[r].id in t.deleted <==> (r, k) in h.dropped)
  }

  /** Reader r was, or is, due to see insertion k, and its lookups have come past its item. */
  predicate Passed(s: Store, h: History, r: nat, k: nat)
    requires r < |s.readers| && k < |h.births| && r < |h.births[k].seen|
  {
    h.births[k].seen[r] <= h.births[k].offset + s.readers[r].delay < Looked(s.readers[r])
  }

  function Count(x: nat, xs: seq<nat>): nat {
    multiset(xs)[x]
  }

  /**
   Exactly once: reader r is handed insertion k once if it was to look the tag's item up after the
   insertion, has done so, and no removal came before; otherwise never.
   */
  ghost predicate Delivered(s: Store, h: History, r: nat, k: nat)
    requires BirthsOk(s, h) && r < |s.readers| && k < |h.births|
  {
    Count(k, h.delivered[r]) == if Passed(s, h, r, k) && (r, k) !in h.dropped then 1 else 0
  }

  ghost predicate Right(s: Store, h: History, r: nat, k: nat)
    requires BirthsOk(s, h) && r < |s.readers| && k < |h.births|
  {
    Held(s, h, r, k) && Delivered(s, h, r, k)
  }

  ghost predicate Exact(s: Store, h: History) {
    && TagsOk(s, h) && BirthsOk(s, h)
    && (forall r, k :: 0 <= r < |s.readers| && 0 <= k < |h.births| ==> Right(s, h, r, k))
  }

  /** The pruning of this event, if it prunes, spares what every reader has yet to look up. */
  ghost predicate Spares(s: Store, e: Event)
    requires Enabled(s, e)
  {
    e.Space? && MinRead(s.readers) != s.lastMin ==>
      forall i :: 0 <= i < |s.readers| ==>
        PruneSpares(s.lastMin, Margin(s), s.readers[i].delay, Looked(s.readers[i]))
  }

  // ---- adding ----

  lemma {:induction false} InsertKeepsSerials(ts: seq<Tag>, t: Tag)
    requires DistinctSerials(ts)
    requires forall x :: x in ts ==> x.serial < t.serial
    ensures DistinctSerials(Insert(ts, t))
  {
    if ts != [] && ts[|ts| - 1].offset > t.offset {
      var rest, last := ts[..|ts| - 1], ts[|ts| - 1];
      assert forall x :: x in rest ==> x in ts;
      InsertKeepsSerials(rest, t);
      forall i | 0 <= i < |Insert(rest, t)| ensures Insert(rest, t)[i].serial != last.serial {
        assert Insert(rest, t)[i] in Insert(rest, t);
        if Insert(rest, t)[i] != t {
          var j :| 0 <= j < |rest| && rest[j] == Insert(rest, t)[i];
          assert ts[j].serial != last.serial;
        } else {
          assert last in ts;
        }
      }
    }
  }

  lemma AddKeepsState(s: Store, h: History, offset: nat, payload: int)
    requires Exact(s, h) && Enabled(s, Add(offset, payload))
    ensures var e := Add(offset, payload);
            TagsOk(Next(s, e, |h.births|), Recorded(s, e, h)) && BirthsOk(Next(s, e, |h.births|), Recorded(s, e, h))
  {
    var t := Tag(|h.births|, offset, payload, {});
    var s', h' := Next(s, Add(offset, payload), |h.births|), Recorded(s, Add(offset, payload), h);
    InsertSorts(s.tags, t);
    forall x | x in s.tags ensures x.serial < t.serial && TagOk(s', h', x) {
      assert TagOk(s, h, x);
    }
    InsertKeepsSerials(s.tags, t);
  }

  lemma AddKeeps(s: Store, h: History, offset: nat, payload: int)
    requires Exact(s, h) && Enabled(s, Add(offset, payload))
    ensures Exact(Next(s, Add(offset, payload), |h.births|), Recorded(s, Add(offset, payload), h))
  {
    var s', h' := Next(s, Add(offset, payload), |h.births|), Recorded(s, Add(offset, payload), h);
    AddKeepsState(s, h, offset, payload);
    forall r, k | 0 <= r < |s'.readers| && 0 <= k < |h'.births| ensures Right(s', h', r, k) {
      if k < |h.births| {
        assert h'.births[k] == h.births[k];
        assert Right(s, h, r, k);
      } else {
        assert Tag(k, offset, payload, {}) in s'.tags;
        assert k !in h.delivered[r];
        assert h'.births[k].seen[r] == Looked(s.readers[r]);
      }
    }
  }

  // ---- removing ----

  lemma MarkKeepsTags(s: Store, h: History, offset: nat, payload: int, id: int)
    requires TagsOk(s, h)
    ensures TagsOk(s.(tags := MarkAll(s.tags, offset, payload, id)), h)
  {
    var ts := MarkAll(s.tags, offset, payload, id);
    forall t | t in ts ensures TagOk(s.(tags := ts), h, t) {
      var i :| 0 <= i < |ts| && ts[i] == t;
      assert TagOk(s, h, s.tags[i]);
    }
  }

  lemma MarkKeepsHeld(s: Store, h: History, offset: nat, payload: int, id: int, r: nat, k: nat)
    requires Exact(s, h) && r < |s.readers| && k < |h.births| && Awaits(s, h.births[k], r)
    ensures exists t :: t in MarkAll(s.tags, offset, payload, id) && t.serial == k &&
              (s.readers[r].id in t.deleted <==> (r, k) in h.dropped + NewlyDropped(s, h, offset, payload, id))
  {
    assert Right(s, h, r, k);
    var t :| t in s.tags && t.serial == k && (s.readers[r].id in t.deleted <==> (r, k) in h.dropped);
    assert TagOk(s, h, t);
    var i :| 0 <= i < |s.tags| && s.tags[i] == t;
    var marked := MarkAll(s.tags, offset, payload, id)[i];
    assert marked == Marked(t, offset, payload, id) && marked in MarkAll(s.tags, offset, payload, id);
  }

  lemma RemoveKeeps(s: Store, h: History, offset: nat, payload: int, id: int)
    requires Exact(s, h)
    ensures Exact(Next(s, Remove(offset, payload, id), |h.births|), Recorded(s, Remove(offset, payload, id), h))
  {
    var e := Remove(offset, payload, id);
    var s', h' := Next(s, e, |h.births|), Recorded(s, e, h);
    MarkKeepsTags(s, h, offset, payload, id);
    assert BirthsOk(s', h');
    forall r, k | 0 <= r < |s'.readers| && 0 <= k < |h'.births| ensures Right(s', h', r, k) {
      assert Right(s, h, r, k);
      if Awaits(s, h.births[k], r) {
        MarkKeepsHeld(s, h, offset, payload, id, r, k);
      }
    }
  }

  // ---- pruning ----

  lemma PruneKeepsSerials(ts: seq<Tag>, limit: nat, margin: nat)
    requires DistinctSerials(ts)
    ensures DistinctSerials(Prune(ts, limit, margin))
  {
  }

  lemma PruneKeepsHeld(s: Store, h: History, r: nat, k: nat)
    requires Exact(s, h) && r < |s.readers| && k < |h.births| && Awaits(s, h.births[k], r)
    requires PruneSpares(s.lastMin, Margin(s), s.readers[r].delay, Looked(s.readers[r]))
    ensures exists t :: t in Prune(s.tags, s.lastMin, Margin(s)) && t.serial == k &&
              (s.readers[r].id in t.deleted <==> (r, k) in h.dropped)
  {
    assert Right(s, h, r, k);
    var t :| t in s.tags && t.serial == k && (s.readers[r].id in t.deleted <==> (r, k) in h.dropped);
    assert TagOk(s, h, t);
    PruneIsSafeExactlyWhen(s.lastMin, Margin(s), s.readers[r].delay, Looked(s.readers[r]));
    assert DroppedIsLookedUp(t.offset, s.lastMin, Margin(s), s.readers[r].delay, Looked(s.readers[r]));
    assert NoWrap(s.tags, Margin(s)) by {
      forall x | x in s.tags ensures x.offset + Margin(s) < MODULUS {
        assert TagOk(s, h, x);
      }
    }
    PruneDropsStale(s.tags, s.lastMin, Margin(s));
  }

  lemma PruneKeepsState(s: Store, h: History)
    requires Exact(s, h)
    ensures TagsOk(s.(tags := Prune(s.tags, s.lastMin, Margin(s))), h)
  {
    assert NoWrap(s.tags, Margin(s)) by {
      forall x | x in s.tags ensures x.offset + Margin(s) < MODULUS {
        assert TagOk(s, h, x);
      }
    }
    PruneDropsStale(s.tags, s.lastMin, Margin(s));
    PruneKeepsSerials(s.tags, s.lastMin, Margin(s));
    var s' := s.(tags := Prune(s.tags, s.lastMin, Margin(s)));
    forall t | t in s'.tags ensures TagOk(s', h, t) {
      assert TagOk(s, h, t);
    }
  }

  /** What was written, and the room left for it, play no part in what is looked up. */
  lemma SameTagsKeep(s: Store, s': Store, h: History)
    requires Exact(s, h) && s' == s.(written := s'.written, room := s'.room)
    ensures Exact(s', h)
  {
    forall t | t in s'.tags ensures TagOk(s', h, t) {
      assert TagOk(s, h, t);
    }
    forall r, k | 0 <= r < |s'.readers| && 0 <= k < |h.births| ensures Right(s', h, r, k) {
      assert Right(s, h, r, k);
    }
  }

  lemma SpaceKeeps(s: Store, h: History)
    requires Exact(s, h) && Enabled(s, Space) && Spares(s, Space)
    ensures Exact(Next(s, Space, |h.births|), Recorded(s, Space, h))
  {
    var s' := Next(s, Space, |h.births|);
    if MinRead(s.readers) == s.lastMin {
      SameTagsKeep(s, s', h);
    } else {
      PointersStay(s, Space, |h.births|);
      PruneKeepsState(s, h);
      assert TagsOk(s', h) by {
        forall t | t in s'.tags ensures TagOk(s', h, t) {
          assert TagOk(s.(tags := s'.tags), h, t);
        }
      }
      assert BirthsOk(s', h);
      forall r, k | 0 <= r < |s'.readers| && 0 <= k < |h.births| ensures Right(s', h, r, k) {
        assert Right(s, h, r, k);
        if Awaits(s, h.births[k], r) {
          PruneKeepsHeld(s, h, r, k);
        }
      }
    }
  }

  // ---- working ----

  /** Beginning and moving change nothing about what has been looked up. */
  lemma WorkKeeps(s: Store, h: History, e: Event)
    requires Exact(s, h) && Enabled(s, e) && (e.Begin? || e.Move?)
    ensures Exact(Next(s, e, |h.births|), Recorded(s, e, h))
  {
    var s' := Next(s, e, |h.births|);
    PointersStay(s, e, |h.births|);
    forall i | 0 <= i < |s.readers|
      ensures Looked(s'.readers[i]) == Looked(s.readers[i])
      ensures s'.readers[i].delay == s.readers[i].delay && s'.readers[i].id == s.readers[i].id
    {
    }
    forall t | t in s'.tags ensures TagOk(s', h, t) {
      assert TagOk(s, h, t);
    }
    assert BirthsOk(s', h);
    forall r, k | 0 <= r < |s'.readers| && 0 <= k < |h.births| ensures Right(s', h, r, k) {
      assert Right(s, h, r, k);
    }
  }

  // ---- looking up ----

  /** Insertion k has an entry that shows. */
  predicate ShowsSerial(ts: seq<Tag>, start: nat, end: nat, delay: nat, id: int, k: nat) {
    exists t :: t in ts && t.serial == k && Shows(t, start, end, delay, id)
  }

  lemma SerialsAppend(v: seq<Tag>, t: Tag)
    ensures Serials(v + [t]) == Serials(v) + [t.serial]
  {
  }

  /** Among distinct entries, insertion k is handed over once if its entry shows, else not at all. */
  lemma {:induction false} VisibleCounts(ts: seq<Tag>, start: nat, end: nat, delay: nat, id: int, k: nat)
    requires DistinctSerials(ts)
    ensures Count(k, Serials(Visible(ts, start, end, delay, id))) ==
            if ShowsSerial(ts, start, end, delay, id, k) then 1 else 0
  {
    if ts != [] {
      var rest, last := ts[..|ts| - 1], ts[|ts| - 1];
      assert ts == rest + [last];
      VisibleCounts(rest, start, end, delay, id, k);
      var v := Visible(rest, start, end, delay, id);
      SerialsAppend(v, Handed(last, delay));
      assert v + [] == v;
      assert ShowsSerial(ts, start, end, delay, id, k) <==>
        ShowsSerial(rest, start, end, delay, id, k) || (last.serial == k && Shows(last, start, end, delay, id)) by {
        assert forall t :: t in ts <==> t in rest || t == last;
      }
      if last.serial == k {
        forall t | t in rest ensures t.serial != k {
          var i :| 0 <= i < |rest| && rest[i] == t;
          assert ts[i].serial != ts[|ts| - 1].serial;
        }
      }
    }
  }

  /** Whether insertion k is in the window of reader r and was not removed for it. */
  lemma ShowsExactlyWhen(s: Store, h: History, r: nat, k: nat)
    requires Exact(s, h) && r < |s.readers| && k < |h.births| && s.readers[r].working
    ensures var x := s.readers[r];
            ShowsSerial(s.tags, x.start, x.read, x.delay, x.id, k) <==>
            && (exists t :: t in s.tags && t.serial == k) && x.start <= h.births[k].offset + x.delay < x.read
            && exists t :: t in s.tags && t.serial == k && x.id !in t.deleted
  {
    var x := s.readers[r];
    forall t | t in s.tags && t.serial == k ensures Plus(t.offset, x.delay) == h.births[k].offset + x.delay {
      assert TagOk(s, h, t);
      PlainSum(t.offset, x.delay);
    }
  }

  lemma OneEntry(ts: seq<Tag>, t: Tag, u: Tag)
    requires DistinctSerials(ts) && t in ts && u in ts && t.serial == u.serial
    ensures t == u
  {
    var i :| 0 <= i < |ts| && ts[i] == t;
    var j :| 0 <= j < |ts| && ts[j] == u;
  }

  /** What reader r is handed when it looks its window up. */
  function Handout(s: Store, r: nat): seq<nat>
    requires r < |s.readers|
  {
    var x := s.readers[r];
    Serials(Visible(s.tags, x.start, x.read, x.delay, x.id))
  }

  lemma LookedUpIsHandout(s: Store, h: History, r: nat)
    requires TagsOk(s, h) && PointersOk(s) && Enabled(s, Look(r))
    ensures LookedUp(s, r).Found? && Serials(LookedUp(s, r).tags) == Handout(s, r)
  {
    var x := s.readers[r];
    forall t | t in s.tags ensures t.offset + x.delay < MODULUS {
      assert TagOk(s, h, t);
    }
    PlainLookup(s.tags, x.start, x.read, x.delay, x.id);
  }

  lemma LookRecords(s: Store, h: History, r: nat)
    requires Exact(s, h) && Enabled(s, Look(r))
    ensures Recorded(s, Look(r), h) == h.(delivered := h.delivered[r := h.delivered[r] + Handout(s, r)])
  {
    LookedUpIsHandout(s, h, r);
  }

  lemma CountSum(k: nat, a: seq<nat>, b: seq<nat>)
    ensures Count(k, a + b) == Count(k, a) + Count(k, b)
  {
  }

  lemma HandoutCounts(s: Store, h: History, r: nat, k: nat)
    requires Exact(s, h) && Enabled(s, Look(r)) && k < |h.births|
    ensures Count(k, h.delivered[r] + Handout(s, r)) ==
            if h.births[k].seen[r] <= h.births[k].offset + s.readers[r].delay < s.readers[r].read &&
              (r, k) !in h.dropped
            then 1 else 0
  {
    var x := s.readers[r];
    VisibleCounts(s.tags, x.start, x.read, x.delay, x.id, k);
    ShowsExactlyWhen(s, h, r, k);
    CountSum(k, h.delivered[r], Handout(s, r));
    assert Right(s, h, r, k);
    if Awaits(s, h.births[k], r) {
      var u :| u in s.tags && u.serial == k && (x.id in u.deleted <==> (r, k) in h.dropped);
      forall t | t in s.tags && t.serial == k ensures t == u {
        OneEntry(s.tags, t, u);
      }
    }
  }

  lemma {:induction false} HandoutIsKnown(ts: seq<Tag>, start: nat, end: nat, delay: nat, id: int, limit: nat)
    requires forall t :: t in ts ==> t.serial < limit
    ensures forall k :: k in Serials(Visible(ts, start, end, delay, id)) ==> k < limit
  {
    if ts != [] {
      assert forall t :: t in ts[..|ts| - 1] ==> t in ts;
      HandoutIsKnown(ts[..|ts| - 1], start, end, delay, id, limit);
      var v := Visible(ts[..|ts| - 1], start, end, delay, id);
      assert ts[|ts| - 1] in ts;
      SerialsAppend(v, Handed(ts[|ts| - 1], delay));
      assert v + [] == v;
    }
  }

  lemma LookKeepsState(s: Store, h: History, r: nat)
    requires Exact(s, h) && Enabled(s, Look(r))
    ensures TagsOk(Next(s, Look(r), |h.births|), Recorded(s, Look(r), h))
    ensures BirthsOk(Next(s, Look(r), |h.births|), Recorded(s, Look(r), h))
  {
    var s', h' := Next(s, Look(r), |h.births|), Recorded(s, Look(r), h);
    var x := s.readers[r];
    LookRecords(s, h, r);
    PointersStay(s, Look(r), |h.births|);
    forall t | t in s.tags ensures t.serial < |h.births| && TagOk(s', h', t) {
      assert TagOk(s, h, t);
    }
    HandoutIsKnown(s.tags, x.start, x.read, x.delay, x.id, |h.births|);
  }

  lemma LookKeepsRight(s: Store, h: History, r: nat, q: nat, k: nat)
    requires Exact(s, h) && Enabled(s, Look(r)) && q < |s.readers| && k < |h.births|
    ensures var s', h' := Next(s, Look(r), |h.births|), Recorded(s, Look(r), h);
            BirthsOk(s', h') && Right(s', h', q, k)
  {
    LookKeepsState(s, h, r);
    LookRecords(s, h, r);
    assert Right(s, h, q, k);
    if q == r {
      HandoutCounts(s, h, r, k);
    }
  }

  lemma LookKeeps(s: Store, h: History, r: nat)
    requires Exact(s, h) && Enabled(s, Look(r))
    ensures Exact(Next(s, Look(r), |h.births|), Recorded(s, Look(r), h))
  {
    var s', h' := Next(s, Look(r), |h.births|), Recorded(s, Look(r), h);
    LookKeepsState(s, h, r);
    LookRecords(s, h, r);
    forall q: nat, k: nat | q < |s'.readers| && k < |h'.births| ensures Right(s', h', q, k) {
      LookKeepsRight(s, h, r, q, k);
    }
  }

  // ------------------------------------------------------------------------------------
  // Whole runs
  // ------------------------------------------------------------------------------------

  lemma EventKeeps(s: Store, h: History, e: Event)
    requires Exact(s, h) && Enabled(s, e) && Spares(s, e)
    ensures Exact(Next(s, e, |h.births|), Recorded(s, e, h))
  {
    match e
    case Add(offset, payload) => AddKeeps(s, h, offset, payload);
    case Remove(offset, payload, id) => RemoveKeeps(s, h, offset, payload, id);
    case Space => SpaceKeeps(s, h);
    case Write(n) => SameTagsKeep(s, Next(s, e, |h.births|), h);
    case Begin(_) => WorkKeeps(s, h, e);
    case Move(_, _) => WorkKeeps(s, h, e);
    case Look(r) => LookKeeps(s, h, r);
  }

  ghost predicate EnabledRun(s: Store, h: History, es: seq<Event>)
    requires PointersOk(s) && |h.delivered| == |s.readers|
    decreases |es|
  {
    es == [] ||
    (Enabled(s, es[0]) &&
     (PointersStay(s, es[0], |h.births|);
      EnabledRun(Next(s, es[0], |h.births|), Recorded(s, es[0], h), es[1..])))
  }

  /** Every pruning of the run spares what some reader has yet to look up. */
  ghost predicate SparingRun(s: Store, h: History, es: seq<Event>)
    requires PointersOk(s) && |h.delivered| == |s.readers| && EnabledRun(s, h, es)
    decreases |es|
  {
    es == [] ||
    (Spares(s, es[0]) &&
     (PointersStay(s, es[0], |h.births|);
      SparingRun(Next(s, es[0], |h.births|), Recorded(s, es[0], h), es[1..])))
  }

  /** The run is one the buffer admits. */
  ghost predicate AdmittedRun(s: Store, h: History, es: seq<Event>)
    requires PointersOk(s) && |h.delivered| == |s.readers| && EnabledRun(s, h, es)
    decreases |es|
  {
    es == [] ||
    (Admits(s, es[0]) &&
     (PointersStay(s, es[0], |h.births|);
      AdmittedRun(Next(s, es[0], |h.births|), Recorded(s, es[0], h), es[1..])))
  }

  datatype Outcome = Outcome(store: Store, history: History)

  /** The state and history after a run of events. */
  ghost function After(s: Store, h: History, es: seq<Event>): Outcome
    requires PointersOk(s) && |h.delivered| == |s.readers| && EnabledRun(s, h, es)
    decreases |es|
  {
    if es == [] then Outcome(s, h)
    else
      PointersStay(s, es[0], |h.births|);
      After(Next(s, es[0], |h.births|), Recorded(s, es[0], h), es[1..])
  }

  lemma {:induction false} RunKeeps(s: Store, h: History, es: seq<Event>)
    requires Exact(s, h) && EnabledRun(s, h, es) && SparingRun(s, h, es)
    ensures Exact(After(s, h, es).store, After(s, h, es).history)
    decreases |es|
  {
    if es != [] {
      EventKeeps(s, h, es[0]);
      RunKeeps(Next(s, es[0], |h.births|), Recorded(s, es[0], h), es[1..]);
    }
  }

  function Nothing(readers: nat): History {
    History([], {}, seq(readers, _ => []))
  }

  /** Readers that have just joined a buffer. */
  predicate Fresh(rs: seq<Reader>) {
    forall q :: 0 <= q < |rs| ==> rs[q].read == 0 && rs[q].start == 0 && !rs[q].working && rs[q].delay < MODULUS
  }

  function Empty(rs: seq<Reader>, maxDelay: nat, size: nat): Store {
    Store([], rs, 0, maxDelay, size, 0, 0)
  }

  /**
   Over every run from an empty buffer whose prunings spare what is yet to be looked up: each reader
   is handed each tag once if it came past the tag's item after the tag was added and before any
   removal, and otherwise never.
   */
  lemma TagsAreDeliveredExactlyOnce(rs: seq<Reader>, maxDelay: nat, size: nat, es: seq<Event>, r: nat, k: nat)
    requires Fresh(rs) && size > 0 && maxDelay + size < MODULUS
    requires EnabledRun(Empty(rs, maxDelay, size), Nothing(|rs|), es) &&
             SparingRun(Empty(rs, maxDelay, size), Nothing(|rs|), es)
    ensures var o := After(Empty(rs, maxDelay, size), Nothing(|rs|), es);
            r < |o.store.readers| && k < |o.history.births| ==>
              && BirthsOk(o.store, o.history)
              && Count(k, o.history.delivered[r]) ==
                 if Passed(o.store, o.history, r, k) && (r, k) !in o.history.dropped then 1 else 0
  {
    RunKeeps(Empty(rs, maxDelay, size), Nothing(|rs|), es);
    var o := After(Empty(rs, maxDelay, size), Nothing(|rs|), es);
    if r < |o.store.readers| && k < |o.history.births| {
      assert Right(o.store, o.history, r, k);
    }
  }

  // ------------------------------------------------------------------------------------
  // Insertions and removals of a run
  // ------------------------------------------------------------------------------------

  /** The insertions among events, in order. */
  function Adds(es: seq<Event>): seq<(nat, int)> {
    if es == [] then []
    else (if es[0].Add? then [(es[0].offset, es[0].payload)] else []) + Adds(es[1..])
  }

  /** Some removal among the events is of this tag, for this block. */
  predicate Removes(es: seq<Event>, offset: nat, payload: int, id: int) {
    Remove(offset, payload, id) in es
  }

  /** The births from before, then those of the insertions `more`. */
  ghost predicate Grown(before: seq<Birth>, now: seq<Birth>, more: seq<(nat, int)>) {
    && |now| == |before| + |more| && now[..|before|] == before
    && forall k :: 0 <= k < |more| ==> now[|before| + k].offset == more[k].0 && now[|before| + k].payload == more[k].1
  }

  lemma GrownFurther(a: seq<Birth>, b: seq<Birth>, c: seq<Birth>, x: seq<(nat, int)>, y: seq<(nat, int)>)
    requires Grown(a, b, x) && Grown(b, c, y)
    ensures Grown(a, c, x + y)
  {
    assert c[..|b|][..|a|] == c[..|a|];
    forall i | 0 <= i < |b| ensures c[i] == b[i] {
      assert c[..|b|][i] == c[i];
    }
  }

  ghost predicate SameReaders(rs: seq<Reader>, now: seq<Reader>) {
    |now| == |rs| && forall i :: 0 <= i < |rs| ==> now[i].delay == rs[i].delay && now[i].id == rs[i].id
  }

  lemma EventGrows(s: Store, h: History, e: Event)
    requires Enabled(s, e) && PointersOk(s) && |h.delivered| == |s.readers|
    ensures Grown(h.births, Recorded(s, e, h).births, if e.Add? then [(e.offset, e.payload)] else [])
    ensures h.dropped <= Recorded(s, e, h).dropped && SameReaders(s.readers, Next(s, e, |h.births|).readers)
  {
  }

  /** The births of a run are its insertions, one after the other, behind those before; readers stay who they are. */
  lemma {:induction false} BirthsAreAdds(s: Store, h: History, es: seq<Event>)
    requires PointersOk(s) && |h.delivered| == |s.readers| && EnabledRun(s, h, es)
    ensures var o := After(s, h, es);
            && Grown(h.births, o.history.births, Adds(es)) && SameReaders(s.readers, o.store.readers)
            && h.dropped <= o.history.dropped
    decreases |es|
  {
    if es != [] {
      var e := es[0];
      var s', h' := Next(s, e, |h.births|), Recorded(s, e, h);
      PointersStay(s, e, |h.births|);
      EventGrows(s, h, e);
      BirthsAreAdds(s', h', es[1..]);
      assert After(s, h, es) == After(s', h', es[1..]);
      GrownFurther(h.births, h'.births, After(s, h, es).history.births, if e.Add? then [(e.offset, e.payload)] else [],
        Adds(es[1..]));
    }
  }

  /** A tag is lost to a reader by removal only if some event removed just this tag for the reader's block. */
  lemma {:induction false} DroppedWasRemoved(s: Store, h: History, es: seq<Event>, r: nat, k: nat)
    requires PointersOk(s) && |h.delivered| == |s.readers| && EnabledRun(s, h, es)
    requires (r, k) in After(s, h, es).history.dropped && (r, k) !in h.dropped
    ensures var o := After(s, h, es);
            k < |o.history.births| && r < |s.readers| &&
            Removes(es, o.history.births[k].offset, o.history.births[k].payload, s.readers[r].id)
    decreases |es|
  {
    if es != [] {
      var e := es[0];
      var s', h' := Next(s, e, |h.births|), Recorded(s, e, h);
      PointersStay(s, e, |h.births|);
      EventGrows(s, h, e);
      BirthsAreAdds(s', h', es[1..]);
      assert After(s, h, es) == After(s', h', es[1..]);
      if (r, k) !in h'.dropped {
        DroppedWasRemoved(s', h', es[1..], r, k);
        assert forall x :: x in es[1..] ==> x in es;
      } else {
        var o := After(s, h, es);
        assert k < |h.births| && o.history.births[..|h.births|][k] == o.history.births[k];
        assert e == Remove(h.births[k].offset, h.births[k].payload, s.readers[r].id) && e in es;
      }
    }
  }

  /** A tag removed for a block before the block has come to look its item up is never handed to it after that. */
  lemma RemovedIsNeverDelivered(s: Store, h: History, r: nat, k: nat, es: seq<Event>)
    requires Exact(s, h) && r < |s.readers| && k < |h.births|
    requires Looked(s.readers[r]) <= h.births[k].offset + s.readers[r].delay
    requires var e := Remove(h.births[k].offset, h.births[k].payload, s.readers[r].id);
             && PointersOk(Next(s, e, |h.births|)) && |Recorded(s, e, h).delivered| == |Next(s, e, |h.births|).readers|
             && EnabledRun(Next(s, e, |h.births|), Recorded(s, e, h), es)
             && SparingRun(Next(s, e, |h.births|), Recorded(s, e, h), es)
    ensures var e := Remove(h.births[k].offset, h.births[k].payload, s.readers[r].id);
            var o := After(Next(s, e, |h.births|), Recorded(s, e, h), es);
            r < |o.history.delivered| && k !in o.history.delivered[r]
  {
    var e := Remove(h.births[k].offset, h.births[k].payload, s.readers[r].id);
    var s', h' := Next(s, e, |h.births|), Recorded(s, e, h);
    RemoveKeeps(s, h, h.births[k].offset, h.births[k].payload, s.readers[r].id);
    RunKeeps(s', h', es);
    BirthsAreAdds(s', h', es);
    var o := After(s', h', es);
    assert o.history.births[k] == o.history.births[..|h.births|][k] == h.births[k];
    assert Right(o.store, o.history, r, k);
    if h.births[k].seen[r] <= h.births[k].offset + s.readers[r].delay {
      assert (r, k) in h'.dropped;
    }
    NoneCounted(k, o.history.delivered[r]);
  }

  lemma NoneCounted(x: nat, xs: seq<nat>)
    requires Count(x, xs) == 0
    ensures x !in xs
  {
  }

  // ------------------------------------------------------------------------------------
  // Which delays are safe
  // ------------------------------------------------------------------------------------

  /** No reader's delay is more than two above the largest delay the buffer knows of. */
  ghost predicate ModestDelays(s: Store) {
    forall i :: 0 <= i < |s.readers| ==> s.readers[i].delay <= s.maxDelay + 2
  }

  /**
   A pruning limit is behind every pointer, and a pointer is less than a buffer ahead of its window,
   so with modest delays every pruning spares what is yet to be looked up.
   */
  lemma {:induction false} ModestDelaysAreSpared(s: Store, h: History, es: seq<Event>)
    requires PointersOk(s) && |h.delivered| == |s.readers| && EnabledRun(s, h, es) && ModestDelays(s)
    ensures SparingRun(s, h, es)
    decreases |es|
  {
    if es != [] {
      var e := es[0];
      PointersStay(s, e, |h.births|);
      assert Spares(s, e) by {
        if e.Space? && MinRead(s.readers) != s.lastMin {
          SpaceSpares(s);
        }
      }
      ModestDelaysStay(s, e, |h.births|);
      ModestDelaysAreSpared(Next(s, e, |h.births|), Recorded(s, e, h), es[1..]);
    }
  }

  lemma ModestDelaysStay(s: Store, e: Event, births: nat)
    requires Enabled(s, e) && ModestDelays(s)
    ensures ModestDelays(Next(s, e, births))
  {
  }

  lemma SpaceSpares(s: Store)
    requires PointersOk(s) && ModestDelays(s) && s.readers != [] && MinRead(s.readers) != s.lastMin
    ensures forall i :: 0 <= i < |s.readers| ==>
            PruneSpares(s.lastMin, Margin(s), s.readers[i].delay, Looked(s.readers[i]))
  {
    var m :| m in s.readers && MinRead(s.readers) == m.read;
    var j :| 0 <= j < |s.readers| && s.readers[j] == m;
    assert s.lastMin <= s.readers[j].read;
    forall i | 0 <= i < |s.readers|
      ensures PruneSpares(s.lastMin, Margin(s), s.readers[i].delay, Looked(s.readers[i]))
    {
      assert s.readers[i] in s.readers;
    }
  }

  /** With modest delays, then, every run delivers every tag exactly once. */
  lemma ModestDelaysDeliver(rs: seq<Reader>, maxDelay: nat, size: nat, es: seq<Event>, r: nat, k: nat)
    requires Fresh(rs) && size > 0 && maxDelay + size < MODULUS && ModestDelays(Empty(rs, maxDelay, size))
    requires EnabledRun(Empty(rs, maxDelay, size), Nothing(|rs|), es)
    ensures var o := After(Empty(rs, maxDelay, size), Nothing(|rs|), es);
            r < |o.store.readers| && k < |o.history.births| ==>
              && BirthsOk(o.store, o.history)
              && Count(k, o.history.delivered[r]) ==
                 if Passed(o.store, o.history, r, k) && (r, k) !in o.history.dropped then 1 else 0
  {
    ModestDelaysAreSpared(Empty(rs, maxDelay, size), Nothing(|rs|), es);
    TagsAreDeliveredExactlyOnce(rs, maxDelay, size, es, r, k);
  }

  // ------------------------------------------------------------------------------------
  // Runs a buffer admits
  // ------------------------------------------------------------------------------------

  /** No reader has more unread than the buffer holds, also once the room found last is written. */
  ghost predicate Fits(s: Store) {
    && s.room >= 0
    && forall i :: 0 <= i < |s.readers| ==>
         0 <= Unread(s.readers[i], s.written) && Unread(s.readers[i], s.written) + s.room < s.size
  }

  lemma FitsStays(s: Store, e: Event, births: nat)
    requires Enabled(s, e) && Admits(s, e) && Fits(s) && s.size > 0
    ensures Fits(Next(s, e, births))
  {
    if e.Space? {
      forall i | 0 <= i < |s.readers|
        ensures Unread(s.readers[i], s.written) <= MostUnread(s.readers, s.written) < s.size
      {
        assert s.readers[i] in s.readers;
        var m :| m in s.readers && MostUnread(s.readers, s.written) == Unread(m, s.written);
        var j :| 0 <= j < |s.readers| && s.readers[j] == m;
      }
    }
  }

  /**
   In every run a buffer admits it never holds as much as its size for any reader; so two readers with
   the same preload are never a buffer apart.
   */
  lemma {:induction false} AdmittedRunsFit(s: Store, h: History, es: seq<Event>)
    requires PointersOk(s) && |h.delivered| == |s.readers| && EnabledRun(s, h, es) && AdmittedRun(s, h, es) && Fits(s)
    ensures Fits(After(s, h, es).store)
    decreases |es|
  {
    if es != [] {
      PointersStay(s, es[0], |h.births|);
      FitsStays(s, es[0], |h.births|);
      AdmittedRunsFit(Next(s, es[0], |h.births|), Recorded(s, es[0], h), es[1..]);
    }
  }

  // ------------------------------------------------------------------------------------
  // Delays that lose tags
  // ------------------------------------------------------------------------------------

  /** One more event at the end of a run. */
  lemma {:induction false} RunThen(s: Store, h: History, es: seq<Event>, e: Event)
    requires PointersOk(s) && |h.delivered| == |s.readers| && EnabledRun(s, h, es) && AdmittedRun(s, h, es)
    requires Enabled(After(s, h, es).store, e) && Admits(After(s, h, es).store, e)
    ensures var o := After(s, h, es);
            && PointersOk(o.store) && |o.history.delivered| == |o.store.readers|
            && EnabledRun(s, h, es + [e]) && AdmittedRun(s, h, es + [e])
            && After(s, h, es + [e]) == Outcome(Next(o.store, e, |o.history.births|), Recorded(o.store, e, o.history))
    decreases |es|
  {
    var all := es + [e];
    if es == [] {
      assert all == [e] && all[1..] == [];
      PointersStay(s, e, |h.births|);
    } else {
      assert all[0] == es[0] && all[1..] == es[1..] + [e];
      PointersStay(s, es[0], |h.births|);
      RunThen(Next(s, es[0], |h.births|), Recorded(s, es[0], h), es[1..], e);
    }
  }

  /** The state `s` with nothing handed to reader 0 is where the run `es` ends. */
  ghost predicate Reaches(s0: Store, es: seq<Event>, s: Store, births: seq<Birth>) {
    && PointersOk(s0) && |s0.readers| == |s.readers| == 2
    && EnabledRun(s0, Nothing(2), es) && AdmittedRun(s0, Nothing(2), es)
    && var o := After(s0, Nothing(2), es);
       && o.store == s && o.history.births == births && o.history.dropped == {}
       && |o.history.delivered| == 2 && o.history.delivered[0] == []
  }

  lemma ReachesMore(s0: Store, before: seq<Event>, s: Store, births: seq<Birth>, e: Event, s': Store)
    returns (es: seq<Event>)
    requires Reaches(s0, before, s, births) && Enabled(s, e) && Admits(s, e) && s' == Next(s, e, |births|)
    requires !e.Add? && !e.Remove?
    requires e == Look(0) ==> PointersOk(s) && (LookedUp(s, 0).Found? ==> LookedUp(s, 0).tags == [])
    ensures Reaches(s0, es, s', births) && PointersOk(s')
  {
    RunThen(s0, Nothing(2), before, e);
    PointersStay(s, e, |births|);
    assert Serials([]) == [];
    es := before + [e];
  }

  lemma ReachesAdd(s0: Store, es: seq<Event>, s: Store, offset: nat, s': Store)
    requires Reaches(s0, es, s, []) && Enabled(s, Add(offset, 0)) && s' == Next(s, Add(offset, 0), 0)
    ensures Reaches(s0, es + [Add(offset, 0)], s', [Birth(offset, 0, AllLooked(s.readers))])
  {
    RunThen(s0, Nothing(2), es, Add(offset, 0));
  }

  /** Where the pointer of a reader stands, and where it stood when its work began. */
  datatype Place = Place(read: nat, start: nat, working: bool)

  /** Reader 0 has the large delay, reader 1 is the one that joined last. */
  function Pair(size: nat, maxDelay: nat, delay: nat, tags: seq<Tag>, lastMin: nat, written: nat, room: int,
                a: Place, b: Place): Store
  {
    Store(tags, [Reader(a.read, a.start, a.working, delay, 0, 0), Reader(b.read, b.start, b.working, maxDelay, 1, 0)],
      lastMin, maxDelay, size, written, room)
  }

  lemma OfTwo(a: Reader, b: Reader, written: nat)
    ensures MinRead([a, b]) == Least(a.read, b.read)
    ensures a.preload == b.preload == 0 ==> MostUnread([a, b], written) == written - Least(a.read, b.read)
  {
    assert [a, b][..1] == [a];
  }

  /** A reader begins its work and moves. */
  lemma Moves(s0: Store, before: seq<Event>, s: Store, births: seq<Birth>, r: nat, n: nat, s': Store)
    returns (es: seq<Event>)
    requires Reaches(s0, before, s, births) && r < 2 && !s.readers[r].working
    requires s.readers[r].read + n < MODULUS && n < s.size && n <= Unread(s.readers[r], s.written)
    requires var x := s.readers[r];
             s' == s.(readers := s.readers[r := x.(start := x.read, read := x.read + n, working := true)])
    ensures Reaches(s0, es, s', births) && PointersOk(s')
  {
    var x := s.readers[r];
    var s1 := s.(readers := s.readers[r := x.(start := x.read, working := true)]);
    es := ReachesMore(s0, before, s, births, Begin(r), s1);
    es := ReachesMore(s0, es, s1, births, Move(r, n), s');
  }

  /** Reader 1 begins its work, moves, and looks its window up. */
  lemma Works(s0: Store, before: seq<Event>, s: Store, births: seq<Birth>, n: nat, s': Store)
    returns (es: seq<Event>)
    requires Reaches(s0, before, s, births) && !s.readers[1].working
    requires s.readers[1].read + n < MODULUS && n < s.size && n <= Unread(s.readers[1], s.written)
    requires var x := s.readers[1];
             && PlainWindow(x.read, x.read + n, x.delay)
             && s' == s.(readers := s.readers[1 := x.(start := x.read, read := x.read + n)])
    ensures Reaches(s0, es, s', births)
  {
    var x := s.readers[1];
    var s1 := s.(readers := s.readers[1 := x.(start := x.read, read := x.read + n, working := true)]);
    es := Moves(s0, before, s, births, 1, n, s1);
    es := ReachesMore(s0, es, s1, births, Look(1), s');
  }

  lemma NothingShows(ts: seq<Tag>, start: nat, end: nat, delay: nat, id: int)
    requires Sorted(ts) && NoWrap(ts, delay) && start <= end < MODULUS && delay < MODULUS
    requires PlainWindow(start, end, delay)
    requires forall t :: t in ts ==> !Shows(t, start, end, delay, id)
    ensures InRange(ts, start, end, delay, id) == Found([])
  {
    PlainLookup(ts, start, end, delay, id);
    NoneVisible(ts, start, end, delay, id);
  }

  /** Reader 0 looks up a window in which nothing shows. */
  lemma LooksForNothing(s0: Store, before: seq<Event>, s: Store, births: seq<Birth>, s': Store)
    returns (es: seq<Event>)
    requires Reaches(s0, before, s, births) && PointersOk(s) && s.readers[0].working
    requires Sorted(s.tags) && NoWrap(s.tags, s.readers[0].delay)
    requires var x := s.readers[0];
             && PlainWindow(x.start, x.read, x.delay)
             && (forall t :: t in s.tags ==> !Shows(t, x.start, x.read, x.delay, x.id))
             && s' == s.(readers := s.readers[0 := x.(working := false)])
    ensures Reaches(s0, es, s', births)
  {
    var x := s.readers[0];
    NothingShows(s.tags, x.start, x.read, x.delay, x.id);
    es := ReachesMore(s0, before, s, births, Look(0), s');
  }

  /** Reader 0 begins its work, moves, and looks its window up, in which nothing shows. */
  lemma WorksForNothing(s0: Store, before: seq<Event>, s: Store, births: seq<Birth>, n: nat, s': Store)
    returns (es: seq<Event>)
    requires Reaches(s0, before, s, births) && !s.readers[0].working
    requires s.readers[0].read + n < MODULUS && n < s.size && n <= Unread(s.readers[0], s.written)
    requires Sorted(s.tags) && NoWrap(s.tags, s.readers[0].delay)
    requires var x := s.readers[0];
             && PlainWindow(x.read, x.read + n, x.delay)
             && (forall t :: t in s.tags ==> !Shows(t, x.read, x.read + n, x.delay, x.id))
             && s' == s.(readers := s.readers[0 := x.(start := x.read, read := x.read + n)])
    ensures Reaches(s0, es, s', births)
  {
    var x := s.readers[0];
    var s1 := s.(readers := s.readers[0 := x.(start := x.read, read := x.read + n, working := true)]);
    es := Moves(s0, before, s, births, 0, n, s1);
    es := LooksForNothing(s0, es, s1, births, s');
  }

  /** The writer asks for space. */
  lemma Asks(s0: Store, before: seq<Event>, s: Store, births: seq<Birth>, s': Store) returns (es: seq<Event>)
    requires Reaches(s0, before, s, births) && s.readers[0].preload == s.readers[1].preload == 0
    requires var least := Least(s.readers[0].read, s.readers[1].read);
             && (least != s.lastMin ==> s'.tags == Prune(s.tags, s.lastMin, Margin(s)))
             && (least == s.lastMin ==> s'.tags == s.tags)
             && s' == s.(tags := s'.tags, lastMin := least, room := s.size - (s.written - least) - 1)
    ensures Reaches(s0, es, s', births) && PointersOk(s')
  {
    assert s.readers == [s.readers[0], s.readers[1]];
    OfTwo(s.readers[0], s.readers[1], s.written);
    es := ReachesMore(s0, before, s, births, Space, s');
  }

  /** The writer asks for space, which prunes nothing, and fills it. */
  lemma Fills(s0: Store, before: seq<Event>, s: Store, births: seq<Birth>, s': Store) returns (es: seq<Event>)
    requires Reaches(s0, before, s, births) && s.readers[0].preload == s.readers[1].preload == 0
    requires var least := Least(s.readers[0].read, s.readers[1].read);
             && s.written <= least + s.size - 1
             && (least != s.lastMin ==> Prune(s.tags, s.lastMin, Margin(s)) == s.tags)
             && s' == s.(lastMin := least, written := least + s.size - 1, room := 0)
    ensures Reaches(s0, es, s', births)
  {
    var least := Least(s.readers[0].read, s.readers[1].read);
    var room := s.size - (s.written - least) - 1;
    var s1 := s.(lastMin := least, room := room);
    es := Asks(s0, before, s, births, s1);
    es := ReachesMore(s0, es, s1, births, Write(room), s');
  }

  /** A reader whose delay is three or more above the largest the buffer knows of, and at most its size. */
  predicate LosingCase(size: nat, maxDelay: nat, delay: nat) {
    maxDelay + 3 <= delay <= size && 3 * size < MODULUS
  }

  /** The tag that gets lost. */
  function LostTag(maxDelay: nat, delay: nat): Tag
    requires maxDelay + 3 <= delay
  {
    Tag(0, delay - maxDelay - 3, 0, {})
  }

  lemma KeptBelow(size: nat, maxDelay: nat, delay: nat, limit: nat)
    requires LosingCase(size, maxDelay, delay) && limit <= delay + size - 3
    ensures Prune([LostTag(maxDelay, delay)], limit, maxDelay + size) == [LostTag(maxDelay, delay)]
  {
    PlainSum(delay - maxDelay - 3, maxDelay + size);
  }

  lemma DroppedAbove(size: nat, maxDelay: nat, delay: nat)
    requires LosingCase(size, maxDelay, delay)
    ensures Prune([LostTag(maxDelay, delay)], delay + size - 2, maxDelay + size) == []
  {
    var t := LostTag(maxDelay, delay);
    PlainSum(t.offset, maxDelay + size);
    assert [t][1..] == [];
  }

  // The states that the losing run passes.

  function AfterAdd(size: nat, maxDelay: nat, delay: nat): Store
    requires LosingCase(size, maxDelay, delay)
  {
    Pair(size, maxDelay, delay, [LostTag(maxDelay, delay)], 0, size - 1, 0, Place(0, 0, false), Place(0, 0, false))
  }

  function AfterStart(size: nat, maxDelay: nat, delay: nat): Store
    requires LosingCase(size, maxDelay, delay)
  {
    Pair(size, maxDelay, delay, [LostTag(maxDelay, delay)], 0, size - 1, 0, Place(1, 0, false),
      Place(delay - 1, 0, false))
  }

  function AfterRefill(size: nat, maxDelay: nat, delay: nat): Store
    requires LosingCase(size, maxDelay, delay)
  {
    Pair(size, maxDelay, delay, [LostTag(maxDelay, delay)], 1, size, 0, Place(1, 0, false),
      Place(delay - 1, 0, false))
  }

  function AfterMiddle(size: nat, maxDelay: nat, delay: nat): Store
    requires LosingCase(size, maxDelay, delay)
  {
    Pair(size, maxDelay, delay, [LostTag(maxDelay, delay)], 1, size, 0, Place(delay, 1, false),
      Place(delay, delay - 1, false))
  }

  function AfterFill(size: nat, maxDelay: nat, delay: nat): Store
    requires LosingCase(size, maxDelay, delay)
  {
    Pair(size, maxDelay, delay, [LostTag(maxDelay, delay)], delay, delay + size - 1, 0, Place(delay, 1, false),
      Place(delay, delay - 1, false))
  }

  function AfterRace(size: nat, maxDelay: nat, delay: nat): Store
    requires LosingCase(size, maxDelay, delay)
  {
    var end := delay + size - 1;
    Pair(size, maxDelay, delay, [LostTag(maxDelay, delay)], delay, end, 0, Place(end, delay, true),
      Place(end - 1, delay, true))
  }

  function AfterAsking(size: nat, maxDelay: nat, delay: nat): Store
    requires LosingCase(size, maxDelay, delay)
  {
    var end := delay + size - 1;
    Pair(size, maxDelay, delay, [LostTag(maxDelay, delay)], end - 1, end, size - 2, Place(end, delay, true),
      Place(end - 1, delay, true))
  }

  function AfterSpace(size: nat, maxDelay: nat, delay: nat): Store
    requires LosingCase(size, maxDelay, delay)
  {
    var end := delay + size - 1;
    Pair(size, maxDelay, delay, [LostTag(maxDelay, delay)], end - 1, end, size - 2, Place(end, delay, true),
      Place(end, delay, true))
  }

  function AfterPrune(size: nat, maxDelay: nat, delay: nat): Store
    requires LosingCase(size, maxDelay, delay)
  {
    var end := delay + size - 1;
    Pair(size, maxDelay, delay, [], end, end, size - 1, Place(end, delay, true), Place(end, delay, true))
  }

  function AtTheEnd(size: nat, maxDelay: nat, delay: nat): Store
    requires LosingCase(size, maxDelay, delay)
  {
    var end := delay + size - 1;
    Pair(size, maxDelay, delay, [], end, end, size - 1, Place(end, delay, false), Place(end, delay, true))
  }

  /** The tag is added, and the buffer filled. */
  lemma LoseAdd(size: nat, maxDelay: nat, delay: nat, s0: Store) returns (es: seq<Event>)
    requires LosingCase(size, maxDelay, delay)
    requires s0 == Pair(size, maxDelay, delay, [], 0, 0, 0, Place(0, 0, false), Place(0, 0, false))
    ensures Reaches(s0, es, AfterAdd(size, maxDelay, delay), [Birth(LostTag(maxDelay, delay).offset, 0, [0, 0])])
  {
    var t, zero := LostTag(maxDelay, delay), Place(0, 0, false);
    var s1 := Pair(size, maxDelay, delay, [t], 0, 0, 0, zero, zero);
    assert Reaches(s0, [], s0, []);
    assert AllLooked(s0.readers) == [0, 0];
    ReachesAdd(s0, [], s0, t.offset, s1);
    es := Fills(s0, [] + [Add(t.offset, 0)], s1, [Birth(t.offset, 0, [0, 0])], AfterAdd(size, maxDelay, delay));
  }

  /** Both readers work up to just before the delay of the first. */
  lemma LoseStart(size: nat, maxDelay: nat, delay: nat, s0: Store, before: seq<Event>, births: seq<Birth>)
    returns (es: seq<Event>)
    requires LosingCase(size, maxDelay, delay) && Reaches(s0, before, AfterAdd(size, maxDelay, delay), births)
    ensures Reaches(s0, es, AfterStart(size, maxDelay, delay), births)
  {
    var t := LostTag(maxDelay, delay);
    var s3 := Pair(size, maxDelay, delay, [t], 0, size - 1, 0, Place(1, 0, false), Place(0, 0, false));
    PlainSum(t.offset, delay);
    es := WorksForNothing(s0, before, AfterAdd(size, maxDelay, delay), births, 1, s3);
    es := Works(s0, es, s3, births, delay - 1, AfterStart(size, maxDelay, delay));
  }

  /** The buffer is filled up again. */
  lemma LoseRefill(size: nat, maxDelay: nat, delay: nat, s0: Store, before: seq<Event>, births: seq<Birth>)
    returns (es: seq<Event>)
    requires LosingCase(size, maxDelay, delay) && Reaches(s0, before, AfterStart(size, maxDelay, delay), births)
    ensures Reaches(s0, es, AfterRefill(size, maxDelay, delay), births)
  {
    KeptBelow(size, maxDelay, delay, 0);
    es := Fills(s0, before, AfterStart(size, maxDelay, delay), births, AfterRefill(size, maxDelay, delay));
  }

  /** Both readers work up to the delay of the first. */
  lemma LoseMiddle(size: nat, maxDelay: nat, delay: nat, s0: Store, before: seq<Event>, births: seq<Birth>)
    returns (es: seq<Event>)
    requires LosingCase(size, maxDelay, delay) && Reaches(s0, before, AfterRefill(size, maxDelay, delay), births)
    ensures Reaches(s0, es, AfterMiddle(size, maxDelay, delay), births)
  {
    var t := LostTag(maxDelay, delay);
    var s6 := Pair(size, maxDelay, delay, [t], 1, size, 0, Place(delay, 1, false), Place(delay - 1, 0, false));
    PlainSum(t.offset, delay);
    es := WorksForNothing(s0, before, AfterRefill(size, maxDelay, delay), births, delay - 1, s6);
    es := Works(s0, es, s6, births, 1, AfterMiddle(size, maxDelay, delay));
  }

  /** The buffer is filled once more. */
  lemma LoseFill(size: nat, maxDelay: nat, delay: nat, s0: Store, before: seq<Event>, births: seq<Birth>)
    returns (es: seq<Event>)
    requires LosingCase(size, maxDelay, delay) && Reaches(s0, before, AfterMiddle(size, maxDelay, delay), births)
    ensures Reaches(s0, es, AfterFill(size, maxDelay, delay), births)
  {
    KeptBelow(size, maxDelay, delay, 1);
    es := Fills(s0, before, AfterMiddle(size, maxDelay, delay), births, AfterFill(size, maxDelay, delay));
  }

  /** Reader 0 moves over all of it, and reader 1 over all but one item. */
  lemma LoseRace(size: nat, maxDelay: nat, delay: nat, s0: Store, before: seq<Event>, births: seq<Birth>)
    returns (es: seq<Event>)
    requires LosingCase(size, maxDelay, delay) && Reaches(s0, before, AfterFill(size, maxDelay, delay), births)
    ensures Reaches(s0, es, AfterRace(size, maxDelay, delay), births)
  {
    var t, end := LostTag(maxDelay, delay), delay + size - 1;
    var s9 :=
      Pair(size, maxDelay, delay, [t], delay, end, 0, Place(end, delay, true), Place(delay, delay - 1, false));
    es := Moves(s0, before, AfterFill(size, maxDelay, delay), births, 0, size - 1, s9);
    es := Moves(s0, es, s9, births, 1, size - 2, AfterRace(size, maxDelay, delay));
  }

  /** Reader 1 moves on. */
  lemma LoseMove(size: nat, maxDelay: nat, delay: nat, s0: Store, before: seq<Event>, births: seq<Birth>)
    returns (es: seq<Event>)
    requires LosingCase(size, maxDelay, delay) && Reaches(s0, before, AfterAsking(size, maxDelay, delay), births)
    ensures Reaches(s0, es, AfterSpace(size, maxDelay, delay), births)
  {
    es := ReachesMore(s0, before, AfterAsking(size, maxDelay, delay), births, Move(1, 1),
      AfterSpace(size, maxDelay, delay));
  }

  /** The writer asks for space. */
  lemma LoseSpace(size: nat, maxDelay: nat, delay: nat, s0: Store, before: seq<Event>, births: seq<Birth>)
    returns (es: seq<Event>)
    requires LosingCase(size, maxDelay, delay) && Reaches(s0, before, AfterRace(size, maxDelay, delay), births)
    ensures Reaches(s0, es, AfterAsking(size, maxDelay, delay), births)
  {
    KeptBelow(size, maxDelay, delay, delay);
    es := Asks(s0, before, AfterRace(size, maxDelay, delay), births, AfterAsking(size, maxDelay, delay));
  }

  /** The writer asks again, and the tag is pruned. */
  lemma LosePrune(size: nat, maxDelay: nat, delay: nat, s0: Store, before: seq<Event>, births: seq<Birth>)
    returns (es: seq<Event>)
    requires LosingCase(size, maxDelay, delay) && Reaches(s0, before, AfterSpace(size, maxDelay, delay), births)
    ensures Reaches(s0, es, AfterPrune(size, maxDelay, delay), births) && PointersOk(AfterPrune(size, maxDelay, delay))
  {
    DroppedAbove(size, maxDelay, delay);
    es := Asks(s0, before, AfterSpace(size, maxDelay, delay), births, AfterPrune(size, maxDelay, delay));
  }

  /** Reader 0 looks its window up and finds nothing. */
  lemma LoseLook(size: nat, maxDelay: nat, delay: nat, s0: Store, before: seq<Event>, births: seq<Birth>)
    returns (es: seq<Event>)
    requires LosingCase(size, maxDelay, delay) && Reaches(s0, before, AfterPrune(size, maxDelay, delay), births)
    requires PointersOk(AfterPrune(size, maxDelay, delay))
    ensures Reaches(s0, es, AtTheEnd(size, maxDelay, delay), births)
  {
    es := LooksForNothing(s0, before, AfterPrune(size, maxDelay, delay), births, AtTheEnd(size, maxDelay, delay));
  }

  /** Beyond the buffer size no plain window reaches past the delay, so there is nothing to hand over. */
  lemma {:induction false} BeyondTheBufferNothingPasses(s: Store, h: History, es: seq<Event>, r: nat)
    requires PointersOk(s) && |h.delivered| == |s.readers| && EnabledRun(s, h, es)
    requires r < |s.readers| && s.size < s.readers[r].delay && Looked(s.readers[r]) < s.readers[r].delay
    ensures var o := After(s, h, es).store;
            r < |o.readers| && o.readers[r].delay == s.readers[r].delay && Looked(o.readers[r]) < o.readers[r].delay
    decreases |es|
  {
    if es != [] {
      PointersStay(s, es[0], |h.births|);
      BeyondTheBufferNothingPasses(Next(s, es[0], |h.births|), Recorded(s, es[0], h), es[1..], r);
    }
  }

  /** A reader of the given delay, and one that joined last and whose delay is the one the buffer keeps. */
  function TwoReaders(delay: nat, maxDelay: nat): (rs: seq<Reader>)
    ensures |rs| == 2
  {
    [Reader(0, 0, false, delay, 0, 0), Reader(0, 0, false, maxDelay, 1, 0)]
  }

  /** In this run, which the buffer admits, the first reader comes past a tag that it is never handed. */
  ghost predicate Loses(s: Store, es: seq<Event>)
    requires PointersOk(s) && |s.readers| == 2
  {
    && EnabledRun(s, Nothing(2), es) && AdmittedRun(s, Nothing(2), es)
    && var o := After(s, Nothing(2), es);
       && |o.store.readers| == |o.history.delivered| == 2
       && exists k: nat :: k < |o.history.births| && |o.history.births[k].seen| == 2 && Missed(o, k)
  }

  ghost predicate Missed(o: Outcome, k: nat)
    requires |o.store.readers| == |o.history.delivered| == 2
    requires k < |o.history.births| && |o.history.births[k].seen| == 2
  {
    Passed(o.store, o.history, 0, k) && (0, k) !in o.history.dropped && Count(k, o.history.delivered[0]) == 0
  }

  /**
   Two is as far as it goes: whatever the buffer size and its largest known delay, a reader whose
   delay is at least three larger, up to the buffer size, loses a tag in some run the buffer admits.
   */
  lemma LargerDelaysCanLoseTags(size: nat, maxDelay: nat, delay: nat) returns (es: seq<Event>)
    requires LosingCase(size, maxDelay, delay)
    ensures Loses(Empty(TwoReaders(delay, maxDelay), maxDelay, size), es)
  {
    var t := LostTag(maxDelay, delay);
    var s0 := Pair(size, maxDelay, delay, [], 0, 0, 0, Place(0, 0, false), Place(0, 0, false));
    var births := [Birth(t.offset, 0, [0, 0])];
    es := LoseAdd(size, maxDelay, delay, s0);
    es := LoseStart(size, maxDelay, delay, s0, es, births);
    es := LoseRefill(size, maxDelay, delay, s0, es, births);
    es := LoseMiddle(size, maxDelay, delay, s0, es, births);
    es := LoseFill(size, maxDelay, delay, s0, es, births);
    es := LoseRace(size, maxDelay, delay, s0, es, births);
    es := LoseSpace(size, maxDelay, delay, s0, es, births);
    es := LoseMove(size, maxDelay, delay, s0, es, births);
    es := LosePrune(size, maxDelay, delay, s0, es, births);
    es := LoseLook(size, maxDelay, delay, s0, es, births);
    assert Missed(After(s0, Nothing(2), es), 0);
  }

  /** A reader loses a tag in some run exactly when its delay is three or more above, up to the buffer size. */
  lemma SomeRunLosesExactlyWhen(size: nat, maxDelay: nat, delay: nat)
    requires 0 < size && 3 * size < MODULUS && maxDelay + size < MODULUS && delay < MODULUS
    ensures (exists es :: Loses(Empty(TwoReaders(delay, maxDelay), maxDelay, size), es)) <==>
            maxDelay + 3 <= delay <= size
  {
    var rs := TwoReaders(delay, maxDelay);
    var s := Empty(rs, maxDelay, size);
    if maxDelay + 3 <= delay <= size {
      var es := LargerDelaysCanLoseTags(size, maxDelay, delay);
    } else if es :| Loses(s, es) {
      var o := After(s, Nothing(2), es);
      var k: nat :| k < |o.history.births| && |o.history.births[k].seen| == 2 && Missed(o, k);
      if delay > size {
        BeyondTheBufferNothingPasses(s, Nothing(2), es, 0);
      } else {
        ModestDelaysDeliver(rs, maxDelay, size, es, 0, k);
      }
      assert false;
    }
  }
}
