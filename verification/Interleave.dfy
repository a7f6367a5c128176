/**
 Interleaving streams block by block into one, and taking them apart again. A round is one block of
 every stream.
 */
module Interleave {
  import opened Rounding

  // ------------------------------------------------------------------------------------
  // Lengths
  // ------------------------------------------------------------------------------------

  /** r times a size, by repeated addition. */
  function Times(r: nat, size: nat): nat {
    if r == 0 then 0 else Times(r - 1, size) + size
  }

  lemma {:induction false} TimesIsProduct(r: nat, size: nat)
    ensures Times(r, size) == r * size
  {
    if r > 0 {
      TimesIsProduct(r - 1, size);
      Distribute(r, 1, size);
    }
  }

  lemma {:induction false} TimesAdds(a: nat, b: nat, size: nat)
    ensures Times(a + b, size) == Times(a, size) + Times(b, size)
  {
    if b > 0 {
      TimesAdds(a, b - 1, size);
      assert a + b - 1 == a + (b - 1);
    }
  }

  lemma TimesGrows(a: nat, b: nat, size: nat)
    requires a <= b
    ensures Times(a, size) <= Times(b, size)
  {
    TimesAdds(a, b - a, size);
    assert a + (b - a) == b;
  }

  /** One of n blocks lies within all n of them. */
  lemma Within(o: nat, n: nat, block: nat)
    requires o < n
    ensures Times(o, block) + block <= Times(n, block)
  {
    TimesGrows(o + 1, n, block);
  }

  lemma TimesStep(r: nat, size: nat)
    requires r > 0
    ensures Times(r, size) == Times(r - 1, size) + size
  {
  }

  function Slice<T>(s: seq<T>, at: nat, n: nat): (b: seq<T>)
    requires at + n <= |s|
    ensures |b| == n
  {
    s[at..at + n]
  }

  lemma SliceOfSum<T>(a: seq<T>, b: seq<T>, at: nat, n: nat)
    requires at + n <= |a| + |b|
    ensures at + n <= |a| ==> Slice(a + b, at, n) == Slice(a, at, n)
    ensures at >= |a| ==> Slice(a + b, at, n) == Slice(b, at - |a|, n)
  {
  }

  lemma PrefixGrows<T>(s: seq<T>, at: nat, n: nat)
    requires at + n <= |s|
    ensures s[..at] + Slice(s, at, n) == s[..at + n]
  {
  }

  lemma SliceOfRest<T>(s: seq<T>, from: nat, at: nat, n: nat)
    requires from + at + n <= |s|
    ensures Slice(s[from..], at, n) == Slice(s, from + at, n)
  {
  }

  lemma Regroup<T>(a: seq<T>, b: seq<T>, c: seq<T>)
    ensures (a + b) + c == a + (b + c)
  {
  }

  // ------------------------------------------------------------------------------------
  // The streams
  // ------------------------------------------------------------------------------------

  /** Every stream has the items of `rounds` rounds. */
  ghost predicate LongEnough<T>(ins: seq<seq<T>>, block: nat, rounds: nat) {
    forall n :: 0 <= n < |ins| ==> Times(rounds, block) <= |ins[n]|
  }

  lemma ShorterFits<T>(ins: seq<seq<T>>, block: nat, r: nat, rounds: nat)
    requires r <= rounds && LongEnough(ins, block, rounds)
    ensures LongEnough(ins, block, r)
  {
    TimesGrows(r, rounds, block);
  }

  /** Block r of each of the first n streams. */
  ghost function Row<T>(ins: seq<seq<T>>, block: nat, r: nat, n: nat): (s: seq<T>)
    requires n <= |ins| && LongEnough(ins, block, r + 1)
    ensures |s| == Times(n, block)
  {
    if n == 0 then [] else Row(ins, block, r, n - 1) + Slice(ins[n - 1], Times(r, block), block)
  }

  ghost function Weave<T>(ins: seq<seq<T>>, block: nat, rounds: nat): (s: seq<T>)
    requires LongEnough(ins, block, rounds)
    ensures |s| == Times(rounds, Times(|ins|, block))
  {
    if rounds == 0 then []
    else
      ShorterFits(ins, block, rounds - 1, rounds);
      Weave(ins, block, rounds - 1) + Row(ins, block, rounds - 1, |ins|)
  }

  /** Where block o of round r begins, with n streams. */
  function Place(r: nat, n: nat, o: nat, block: nat): nat {
    Times(r, Times(n, block)) + Times(o, block)
  }

  /** Stream o of n: block o of every round. */
  ghost function Unweave<T>(s: seq<T>, block: nat, n: nat, o: nat, rounds: nat): (t: seq<T>)
    requires o < n && Times(rounds, Times(n, block)) <= |s|
    ensures |t| == Times(rounds, block)
  {
    if rounds == 0 then []
    else
      Within(o, n, block);
      Unweave(s, block, n, o, rounds - 1) + Slice(s, Place(rounds - 1, n, o, block), block)
  }

  /** Block o of a row is the block of stream o. */
  lemma {:induction false} RowBlock<T>(ins: seq<seq<T>>, block: nat, r: nat, n: nat, o: nat)
    requires o < n <= |ins| && LongEnough(ins, block, r + 1)
    ensures Times(o, block) + block <= Times(n, block)
    ensures Slice(Row(ins, block, r, n), Times(o, block), block) == Slice(ins[o], Times(r, block), block)
  {
    Within(o, n, block);
    SliceOfSum(Row(ins, block, r, n - 1), Slice(ins[n - 1], Times(r, block), block), Times(o, block), block);
    if o < n - 1 {
      RowBlock(ins, block, r, n - 1, o);
    }
  }

  lemma {:induction false} UnweavePrefix<T>(a: seq<T>, b: seq<T>, block: nat, n: nat, o: nat, rounds: nat)
    requires o < n && Times(rounds, Times(n, block)) <= |a|
    ensures Unweave(a + b, block, n, o, rounds) == Unweave(a, block, n, o, rounds)
  {
    if rounds > 0 {
      Within(o, n, block);
      UnweavePrefix(a, b, block, n, o, rounds - 1);
      SliceOfSum(a, b, Place(rounds - 1, n, o, block), block);
    }
  }

  /** One more row gives stream o one more block. */
  lemma UnweaveRow<T>(before: seq<T>, row: seq<T>, s: seq<T>, block: nat, n: nat, o: nat, r: nat)
    requires s == before + row
    requires o < n && |before| == Times(r, Times(n, block)) && |row| == Times(n, block)
    ensures Times(o, block) + block <= |row| && Times(r + 1, Times(n, block)) == |s|
    ensures Unweave(s, block, n, o, r + 1) == Unweave(before, block, n, o, r) + Slice(row, Times(o, block), block)
  {
    UnweaveStep(s, block, n, o, r);
    UnweavePrefix(before, row, block, n, o, r);
    SliceOfSum(before, row, Place(r, n, o, block), block);
    assert Unweave(s, block, n, o, r) == Unweave(before, block, n, o, r);
    assert Place(r, n, o, block) - |before| == Times(o, block);
    assert Slice(s, Place(r, n, o, block), block) == Slice(row, Times(o, block), block);
  }

  lemma UnweaveStep<T>(s: seq<T>, block: nat, n: nat, o: nat, r: nat)
    requires o < n && Times(r, Times(n, block)) + Times(n, block) <= |s|
    ensures Times(r + 1, Times(n, block)) == Times(r, Times(n, block)) + Times(n, block)
    ensures Times(o, block) + block <= Times(n, block)
    ensures Unweave(s, block, n, o, r + 1) == Unweave(s, block, n, o, r) + Slice(s, Place(r, n, o, block), block)
  {
    Within(o, n, block);
  }

  lemma WeaveStep<T>(ins: seq<seq<T>>, block: nat, r: nat)
    requires LongEnough(ins, block, r + 1)
    ensures LongEnough(ins, block, r)
    ensures Weave(ins, block, r + 1) == Weave(ins, block, r) + Row(ins, block, r, |ins|)
  {
    ShorterFits(ins, block, r, r + 1);
  }

  /** Taking apart a woven stream gives back its streams. */
  lemma {:induction false} UnweaveWeave<T>(ins: seq<seq<T>>, block: nat, rounds: nat, o: nat)
    requires o < |ins| && LongEnough(ins, block, rounds)
    ensures Unweave(Weave(ins, block, rounds), block, |ins|, o, rounds) == ins[o][..Times(rounds, block)]
  {
    if rounds > 0 {
      var r := rounds - 1;
      ShorterFits(ins, block, r, rounds);
      UnweaveWeave(ins, block, r, o);
      Within(o, |ins|, block);
      UnweaveRow(Weave(ins, block, r), Row(ins, block, r, |ins|), Weave(ins, block, rounds), block, |ins|, o, r);
      RowBlock(ins, block, r, |ins|, o);
      PrefixGrows(ins[o], Times(r, block), block);
    }
  }

  lemma PlaceIsProduct(r: nat, n: nat, o: nat, block: nat)
    ensures Place(r, n, o, block) == (r * n + o) * block && Times(r, block) == r * block
  {
    TimesIsProduct(r, block);
    TimesIsProduct(n, block);
    TimesIsProduct(r, Times(n, block));
    TimesIsProduct(o, block);
    ProductAssociates(r, n, block);
    Distribute(r * n, o, block);
  }

  lemma ProductAssociates(a: nat, b: nat, c: nat)
    ensures a * (b * c) == (a * b) * c
  {
  }

  /** Block o of round r of the woven stream is block r of stream o. */
  lemma {:induction false} WovenBlock<T>(ins: seq<seq<T>>, block: nat, rounds: nat, r: nat, o: nat)
    requires LongEnough(ins, block, rounds) && r < rounds && o < |ins|
    ensures Place(r, |ins|, o, block) + block <= |Weave(ins, block, rounds)| && Times(r, block) + block <= |ins[o]|
    ensures Slice(Weave(ins, block, rounds), Place(r, |ins|, o, block), block) == Slice(ins[o], Times(r, block), block)
  {
    var last := rounds - 1;
    WeaveStep(ins, block, last);
    var before, row := Weave(ins, block, last), Row(ins, block, last, |ins|);
    if r < last {
      WovenBlock(ins, block, last, r, o);
      SliceOfSum(before, row, Place(r, |ins|, o, block), block);
    } else {
      LastWovenBlock(ins, block, last, o, before, row);
    }
  }

  lemma LastWovenBlock<T>(ins: seq<seq<T>>, block: nat, r: nat, o: nat, before: seq<T>, row: seq<T>)
    requires LongEnough(ins, block, r + 1) && o < |ins|
    requires |before| == Times(r, Times(|ins|, block)) && row == Row(ins, block, r, |ins|)
    ensures Place(r, |ins|, o, block) + block <= |before + row| && Times(r, block) + block <= |ins[o]|
    ensures Slice(before + row, Place(r, |ins|, o, block), block) == Slice(ins[o], Times(r, block), block)
  {
    RowBlock(ins, block, r, |ins|, o);
    BlockOfLastRow(before, row, Times(o, block), block);
  }

  lemma BlockOfLastRow<T>(before: seq<T>, row: seq<T>, at: nat, n: nat)
    requires at + n <= |row|
    ensures Slice(before + row, |before| + at, n) == Slice(row, at, n)
  {
    SliceOfSum(before, row, |before| + at, n);
  }

  /** Block r of stream o is block o of round r of what is taken apart. */
  lemma {:induction false} UnwovenBlock<T>(s: seq<T>, block: nat, n: nat, o: nat, rounds: nat, r: nat)
    requires o < n && Times(rounds, Times(n, block)) <= |s| && r < rounds
    ensures Place(r, n, o, block) + block <= |s| && Times(r, block) + block <= Times(rounds, block)
    ensures Slice(Unweave(s, block, n, o, rounds), Times(r, block), block) == Slice(s, Place(r, n, o, block), block)
  {
    var last := rounds - 1;
    Within(o, n, block);
    TimesGrows(r + 1, rounds, Times(n, block));
    TimesGrows(r + 1, rounds, block);
    UnweaveStep(s, block, n, o, last);
    SliceOfSum(Unweave(s, block, n, o, last), Slice(s, Place(last, n, o, block), block), Times(r, block), block);
    if r < last {
      TimesGrows(r + 1, last, block);
      UnwovenBlock(s, block, n, o, last, r);
    }
  }

  /** Item j of block o of round r of the woven stream is item j of block r of stream o. */
  lemma WovenItem<T>(ins: seq<seq<T>>, block: nat, rounds: nat, r: nat, o: nat, j: nat)
    requires LongEnough(ins, block, rounds) && r < rounds && o < |ins| && j < block
    ensures 0 <= (r * |ins| + o) * block + j < |Weave(ins, block, rounds)| && 0 <= r * block + j < |ins[o]|
    ensures Weave(ins, block, rounds)[(r * |ins| + o) * block + j] == ins[o][r * block + j]
  {
    WovenBlock(ins, block, rounds, r, o);
    PlaceIsProduct(r, |ins|, o, block);
    ItemOfBlock(Weave(ins, block, rounds), Place(r, |ins|, o, block), ins[o], Times(r, block), block, j);
  }

  /** Item j of block r of stream o is item j of block o of round r of what is taken apart. */
  lemma UnwovenItem<T>(s: seq<T>, block: nat, n: nat, o: nat, rounds: nat, r: nat, j: nat)
    requires o < n && Times(rounds, Times(n, block)) <= |s| && r < rounds && j < block
    ensures 0 <= (r * n + o) * block + j < |s| && 0 <= r * block + j < |Unweave(s, block, n, o, rounds)|
    ensures Unweave(s, block, n, o, rounds)[r * block + j] == s[(r * n + o) * block + j]
  {
    UnwovenBlock(s, block, n, o, rounds, r);
    PlaceIsProduct(r, n, o, block);
    ItemOfBlock(Unweave(s, block, n, o, rounds), Times(r, block), s, Place(r, n, o, block), block, j);
  }

  /** Equal blocks hold equal items. */
  lemma ItemOfBlock<T>(s: seq<T>, at: nat, t: seq<T>, from: nat, n: nat, j: nat)
    requires at + n <= |s| && from + n <= |t| && j < n && Slice(s, at, n) == Slice(t, from, n)
    ensures s[at + j] == t[from + j]
  {
    SliceItem(s, at, n, j);
    SliceItem(t, from, n, j);
  }

  lemma SliceItem<T>(s: seq<T>, at: nat, n: nat, j: nat)
    requires at + n <= |s| && j < n
    ensures Slice(s, at, n)[j] == s[at + j]
  {
  }

  // ------------------------------------------------------------------------------------
  // Splitting the work over calls
  // ------------------------------------------------------------------------------------

  function Sum(rs: seq<nat>): nat {
    if rs == [] then 0 else Sum(rs[..|rs| - 1]) + rs[|rs| - 1]
  }

  /** The streams from round r on. */
  ghost function From<T>(ins: seq<seq<T>>, block: nat, r: nat): (t: seq<seq<T>>)
    requires LongEnough(ins, block, r)
    ensures |t| == |ins| && forall n :: 0 <= n < |t| ==> t[n] == ins[n][Times(r, block)..]
  {
    seq(|ins|, n requires 0 <= n < |ins| && Times(r, block) <= |ins[n]| => ins[n][Times(r, block)..])
  }

  lemma FromIsLong<T>(ins: seq<seq<T>>, block: nat, a: nat, b: nat)
    requires LongEnough(ins, block, a + b)
    ensures LongEnough(ins, block, a) && LongEnough(From(ins, block, a), block, b)
  {
    ShorterFits(ins, block, a, a + b);
    TimesAdds(a, b, block);
  }

  /** `rest` holds what is behind the first a rounds. */
  ghost predicate Behind<T>(ins: seq<seq<T>>, rest: seq<seq<T>>, block: nat, a: nat) {
    LongEnough(ins, block, a) && rest == From(ins, block, a)
  }

  lemma BlockBehind<T>(ins: seq<seq<T>>, rest: seq<seq<T>>, block: nat, a: nat, q: nat, r: nat, m: nat)
    requires m < |ins| && r == a + q && Behind(ins, rest, block, a)
    requires LongEnough(ins, block, r + 1) && LongEnough(rest, block, q + 1)
    ensures m < |rest| && Times(q, block) + block <= |rest[m]| && Times(r, block) + block <= |ins[m]|
    ensures Slice(rest[m], Times(q, block), block) == Slice(ins[m], Times(r, block), block)
  {
    TimesAdds(a, q, block);
    SliceOfRest(ins[m], Times(a, block), Times(q, block), block);
  }

  lemma {:induction false} RowBehind<T>(ins: seq<seq<T>>, rest: seq<seq<T>>, block: nat, a: nat, q: nat, r: nat, n: nat)
    requires n <= |ins| && r == a + q && Behind(ins, rest, block, a)
    requires LongEnough(ins, block, r + 1) && LongEnough(rest, block, q + 1)
    ensures n <= |rest| && Row(rest, block, q, n) == Row(ins, block, r, n)
  {
    if n > 0 {
      RowBehind(ins, rest, block, a, q, r, n - 1);
      BlockBehind(ins, rest, block, a, q, r, n - 1);
    }
  }

  /** Round r of all is round q of what follows, and what came before it was woven into `first`. */
  lemma WeaveRowBehind<T>(ins: seq<seq<T>>, rest: seq<seq<T>>, block: nat, q: nat, r: nat, first: seq<T>)
    requires LongEnough(ins, block, r + 1) && LongEnough(rest, block, q + 1) && |rest| == |ins|
    requires LongEnough(ins, block, r) && LongEnough(rest, block, q)
    requires Row(rest, block, q, |ins|) == Row(ins, block, r, |ins|)
    requires Weave(ins, block, r) == first + Weave(rest, block, q)
    ensures Weave(ins, block, r + 1) == first + Weave(rest, block, q + 1)
  {
    WeaveStep(ins, block, r);
    WeaveStep(rest, block, q);
    Regroup(first, Weave(rest, block, q), Row(rest, block, q, |rest|));
  }

  lemma WeaveFurther<T>(ins: seq<seq<T>>, rest: seq<seq<T>>, block: nat, a: nat, q: nat, r: nat)
    requires r == a + q && Behind(ins, rest, block, a) && |rest| == |ins|
    requires LongEnough(ins, block, r + 1) && LongEnough(rest, block, q + 1)
    requires LongEnough(ins, block, r) && LongEnough(rest, block, q)
    requires Weave(ins, block, r) == Weave(ins, block, a) + Weave(rest, block, q)
    ensures Weave(ins, block, r + 1) == Weave(ins, block, a) + Weave(rest, block, q + 1)
  {
    RowBehind(ins, rest, block, a, q, r, |ins|);
    WeaveRowBehind(ins, rest, block, q, r, Weave(ins, block, a));
  }

  lemma {:induction false} WeaveBehind<T>(ins: seq<seq<T>>, rest: seq<seq<T>>, block: nat, a: nat, b: nat, t: nat)
    requires t == a + b && Behind(ins, rest, block, a) && LongEnough(ins, block, t) && LongEnough(rest, block, b)
    ensures Weave(ins, block, t) == Weave(ins, block, a) + Weave(rest, block, b)
    decreases b
  {
    if b > 0 {
      var q, r := b - 1, t - 1;
      ShorterFits(ins, block, r, t);
      ShorterFits(rest, block, q, b);
      WeaveBehind(ins, rest, block, a, q, r);
      WeaveFurther(ins, rest, block, a, q, r);
    } else {
      NothingBehind(Weave(ins, block, a), Weave(rest, block, 0));
    }
  }

  lemma NothingBehind<T>(s: seq<T>, nothing: seq<T>)
    requires nothing == []
    ensures s + nothing == s
  {
  }

  /** One call for a + b rounds is a call for a rounds and a call for the b after them. */
  lemma WeaveInTwo<T>(ins: seq<seq<T>>, block: nat, a: nat, b: nat)
    requires LongEnough(ins, block, a + b)
    ensures LongEnough(ins, block, a) && LongEnough(From(ins, block, a), block, b)
    ensures Weave(ins, block, a + b) == Weave(ins, block, a) + Weave(From(ins, block, a), block, b)
  {
    FromIsLong(ins, block, a, b);
    WeaveBehind(ins, From(ins, block, a), block, a, b, a + b);
  }

  ghost function WeaveCalls<T>(ins: seq<seq<T>>, block: nat, rs: seq<nat>): seq<T>
    requires LongEnough(ins, block, Sum(rs))
  {
    if rs == [] then []
    else
      var done, now := Sum(rs[..|rs| - 1]), rs[|rs| - 1];
      FromIsLong(ins, block, done, now);
      WeaveCalls(ins, block, rs[..|rs| - 1]) + Weave(From(ins, block, done), block, now)
  }

  lemma {:induction false} CallsWeave<T>(ins: seq<seq<T>>, block: nat, rs: seq<nat>)
    requires LongEnough(ins, block, Sum(rs))
    ensures WeaveCalls(ins, block, rs) == Weave(ins, block, Sum(rs))
  {
    if rs != [] {
      var done, now := Sum(rs[..|rs| - 1]), rs[|rs| - 1];
      FromIsLong(ins, block, done, now);
      CallsWeave(ins, block, rs[..|rs| - 1]);
      WeaveInTwo(ins, block, done, now);
    }
  }

  /** Round r of all is round q of what follows the first `skipped` items, which held `first`. */
  lemma UnweaveBehind<T>(s: seq<T>, rest: seq<T>, block: nat, n: nat, o: nat, skipped: nat, r: nat, q: nat,
                         first: seq<T>)
    requires o < n && skipped <= |s| && rest == s[skipped..]
    requires Times(r, Times(n, block)) == skipped + Times(q, Times(n, block))
    requires Times(r, Times(n, block)) + Times(n, block) <= |s|
    requires Unweave(s, block, n, o, r) == first + Unweave(rest, block, n, o, q)
    ensures Times(q + 1, Times(n, block)) <= |rest| && Times(r + 1, Times(n, block)) <= |s|
    ensures Unweave(s, block, n, o, r + 1) == first + Unweave(rest, block, n, o, q + 1)
  {
    UnweaveStep(s, block, n, o, r);
    UnweaveStep(rest, block, n, o, q);
    SliceOfRest(s, skipped, Place(q, n, o, block), block);
    Regroup(first, Unweave(rest, block, n, o, q), Slice(rest, Place(q, n, o, block), block));
  }

  lemma {:induction false} UnweaveRest<T>(s: seq<T>, rest: seq<T>, block: nat, n: nat, o: nat, a: nat, b: nat, t: nat)
    requires o < n && t == a + b && Times(t, Times(n, block)) <= |s|
    requires Times(a, Times(n, block)) <= |s| && rest == s[Times(a, Times(n, block))..]
    ensures Times(t, Times(n, block)) == Times(a, Times(n, block)) + Times(b, Times(n, block))
    ensures Unweave(s, block, n, o, t) == Unweave(s, block, n, o, a) + Unweave(rest, block, n, o, b)
    decreases b
  {
    if b > 0 {
      var q, r := b - 1, t - 1;
      TimesStep(t, Times(n, block));
      TimesStep(b, Times(n, block));
      UnweaveRest(s, rest, block, n, o, a, q, r);
      UnweaveBehind(s, rest, block, n, o, Times(a, Times(n, block)), r, q, Unweave(s, block, n, o, a));
    }
  }

  lemma UnweaveInTwo<T>(s: seq<T>, block: nat, n: nat, o: nat, a: nat, b: nat)
    requires o < n && Times(a + b, Times(n, block)) <= |s|
    ensures Times(a + b, Times(n, block)) == Times(a, Times(n, block)) + Times(b, Times(n, block))
    ensures Unweave(s, block, n, o, a + b) ==
            Unweave(s, block, n, o, a) + Unweave(s[Times(a, Times(n, block))..], block, n, o, b)
  {
    TimesAdds(a, b, Times(n, block));
    UnweaveRest(s, s[Times(a, Times(n, block))..], block, n, o, a, b, a + b);
  }

  ghost function UnweaveCalls<T>(s: seq<T>, block: nat, n: nat, o: nat, rs: seq<nat>): seq<T>
    requires o < n && Times(Sum(rs), Times(n, block)) <= |s|
  {
    if rs == [] then []
    else
      var done, now := Sum(rs[..|rs| - 1]), rs[|rs| - 1];
      TimesAdds(done, now, Times(n, block));
      UnweaveCalls(s, block, n, o, rs[..|rs| - 1]) + Unweave(s[Times(done, Times(n, block))..], block, n, o, now)
  }

  lemma {:induction false} CallsUnweave<T>(s: seq<T>, block: nat, n: nat, o: nat, rs: seq<nat>)
    requires o < n && Times(Sum(rs), Times(n, block)) <= |s|
    ensures UnweaveCalls(s, block, n, o, rs) == Unweave(s, block, n, o, Sum(rs))
  {
    if rs != [] {
      var done, now := Sum(rs[..|rs| - 1]), rs[|rs| - 1];
      UnweaveInTwo(s, block, n, o, done, now);
      CallsUnweave(s, block, n, o, rs[..|rs| - 1]);
    }
  }

  /**
   Whatever the calls of the two blocks, once the same number of rounds went through both, stream o
   comes out as it went in.
   */
  lemma RoundTrip<T>(ins: seq<seq<T>>, block: nat, weaves: seq<nat>, unweaves: seq<nat>, o: nat)
    requires o < |ins| && LongEnough(ins, block, Sum(weaves)) && Sum(unweaves) == Sum(weaves)
    ensures |WeaveCalls(ins, block, weaves)| == Times(Sum(weaves), Times(|ins|, block))
    ensures UnweaveCalls(WeaveCalls(ins, block, weaves), block, |ins|, o, unweaves) ==
            ins[o][..Times(Sum(weaves), block)]
  {
    CallsWeave(ins, block, weaves);
    var s := WeaveCalls(ins, block, weaves);
    CallsUnweave(s, block, |ins|, o, unweaves);
    UnweaveWeave(ins, block, Sum(weaves), o);
  }

  // ------------------------------------------------------------------------------------
  // The interleaving block
  // ------------------------------------------------------------------------------------

  /** A whole number of rounds, counted in items, in blocks, and in items of one stream. */
  lemma WholeRounds(items: nat, block: nat, n: nat)
    requires block > 0 && n > 0 && items % (block * n) == 0
    ensures var rounds := items / (block * n);
            items == Times(rounds, Times(n, block)) && items / block == Times(rounds, n) &&
              items / n == Times(rounds, block)
    ensures items % block == 0 && Times(items / n, n) == items
  {
    var rounds := items / (block * n);
    ProductAtLeast(block, n);
    ExactDivision(items, block * n);
    FactorsCommute(rounds, block, n);
    TimesIsProduct(rounds, block);
    TimesIsProduct(rounds, n);
    TimesDivides(Times(rounds, n), block);
    TimesDivides(Times(rounds, block), n);
  }

  /** As many items as some number of rounds of n blocks holds. */
  ghost predicate IsRounds(items: nat, n: nat, block: nat) {
    exists rounds :: items == Times(rounds, Times(n, block))
  }

  lemma RoundsDivide(rounds: nat, n: nat, block: nat, size: nat)
    requires size == block * n && size > 0
    ensures Times(rounds, Times(n, block)) % size == 0
  {
    FactorsCommute(rounds, block, n);
    MultipleDivides(rounds, size);
  }

  lemma DivisibleIsRounds(items: nat, rounds: nat, n: nat, block: nat, size: nat)
    requires size == block * n && items == rounds * size
    ensures items == Times(rounds, Times(n, block))
  {
    FactorsCommute(rounds, block, n);
  }

  lemma QuotientIsNat(items: nat, size: nat) returns (rounds: nat)
    requires size > 0 && items % size == 0
    ensures items == rounds * size
  {
    rounds := items / size;
    ExactDivision(items, size);
  }

  lemma MultiplesAreRounds(items: nat, n: nat, block: nat, size: nat)
    requires size == block * n && size > 0
    ensures items % size == 0 <==> IsRounds(items, n, block)
  {
    if items % size == 0 {
      var rounds := QuotientIsNat(items, size);
      DivisibleIsRounds(items, rounds, n, block, size);
    }
    if rounds :| items == Times(rounds, Times(n, block)) {
      RoundsDivide(rounds, n, block, size);
    }
  }

  lemma ExactDivision(items: nat, size: nat)
    requires size > 0 && items % size == 0
    ensures items == (items / size) * size
  {
  }

  lemma FactorsCommute(rounds: nat, block: nat, n: nat)
    ensures Times(rounds, Times(n, block)) == rounds * (block * n)
    ensures Times(Times(rounds, n), block) == rounds * (block * n)
    ensures Times(Times(rounds, block), n) == rounds * (block * n)
  {
    TimesIsProduct(n, block);
    TimesIsProduct(rounds, n * block);
    TimesIsProduct(rounds, n);
    TimesIsProduct(rounds, block);
    TimesIsProduct(rounds * n, block);
    TimesIsProduct(rounds * block, n);
    Associate(rounds, n, block);
    Associate(rounds, block, n);
  }

  lemma Associate(a: nat, b: nat, c: nat)
    ensures (a * b) * c == a * (b * c) && a * (b * c) == a * (c * b)
  {
  }

  lemma TimesDivides(k: nat, m: nat)
    requires m > 0
    ensures Times(k, m) / m == k && Times(k, m) % m == 0
  {
    TimesIsProduct(k, m);
    MultipleDivides(k, m);
  }

  lemma {:induction false} RoundsOrder(r: nat, rounds: nat, n: nat)
    requires n > 0 && r <= rounds
    ensures Times(r, n) < Times(rounds, n) <==> r < rounds
  {
    if r < rounds {
      TimesGrows(r + 1, rounds, n);
    }
  }

  lemma RoundFits<T>(ins: seq<seq<T>>, block: nat, r: nat, rounds: nat)
    requires |ins| > 0 && r <= rounds && Times(r, |ins|) < Times(rounds, |ins|) && LongEnough(ins, block, rounds)
    ensures r < rounds && LongEnough(ins, block, r + 1)
    ensures Times(r, Times(|ins|, block)) + Times(|ins|, block) <= Times(rounds, Times(|ins|, block))
  {
    RoundsOrder(r, rounds, |ins|);
    ShorterFits(ins, block, r + 1, rounds);
    TimesGrows(r + 1, rounds, Times(|ins|, block));
  }

  class InterleaveBlock {
    const blocksize: nat
    var ninputs: nat
    var outputMultiple: nat

    /** Until the topology is known, one block is the output multiple. */
    constructor (blocksize: nat)
      ensures this.blocksize == blocksize && ninputs == 0 && outputMultiple == blocksize
    {
      this.blocksize := blocksize;
      ninputs := 0;
      outputMultiple := blocksize;
    }

    /** From now on the multiples the block is asked for are exactly the whole numbers of rounds. */
    method CheckTopology(ninputs: nat, noutputs: nat) returns (ok: bool)
      modifies this
      ensures ok && this.ninputs == ninputs && outputMultiple == blocksize * ninputs
      ensures outputMultiple > 0 ==>
                forall items: nat :: items % outputMultiple == 0 <==> IsRounds(items, ninputs, blocksize)
    {
      this.ninputs := ninputs;
      outputMultiple := blocksize * ninputs;
      ok := true;
      if outputMultiple > 0 {
        forall items: nat ensures items % outputMultiple == 0 <==> IsRounds(items, ninputs, blocksize) {
          MultiplesAreRounds(items, ninputs, blocksize, outputMultiple);
        }
      }
    }

    method Forecast(noutputItems: nat, required: array<nat>)
      requires required.Length > 0
      modifies required
      ensures forall i :: 0 <= i < required.Length ==> required[i] == noutputItems / required.Length
    {
      for i := 0 to required.Length
        invariant forall j :: 0 <= j < i ==> required[j] == noutputItems / required.Length
      {
        required[i] := noutputItems / required.Length;
      }
    }

    function NinputToNoutput(ninput: nat): nat
      reads this
    {
      ninput * ninputs
    }

    function NoutputToNinput(noutput: nat): nat
      requires ninputs > 0
      reads this
    {
      noutput / ninputs
    }

    /** On whole rounds the two conversions undo each other, and every input gives whole blocks. */
    lemma ConversionsUndo(noutput: nat)
      requires ninputs > 0 && blocksize > 0 && noutput % (blocksize * ninputs) == 0
      ensures NinputToNoutput(NoutputToNinput(noutput)) == noutput
      ensures NoutputToNinput(noutput) % blocksize == 0
    {
      WholeRounds(noutput, blocksize, ninputs);
      var rounds := noutput / (blocksize * ninputs);
      TimesIsProduct(rounds, blocksize);
      TimesIsProduct(noutput / ninputs, ninputs);
      MultipleDivides(rounds, blocksize);
    }

    /** Weaves whole rounds; consumes from every input what it wove, and no item is lost. */
    method GeneralWork<T>(noutputItems: nat, ins: seq<seq<T>>, out: array<T>) returns (produced: nat, consumedEach: nat)
      requires blocksize > 0 && ninputs > 0 && |ins| == ninputs
      requires noutputItems % (blocksize * ninputs) == 0 && noutputItems <= out.Length
      requires forall n :: 0 <= n < |ins| ==> noutputItems / ninputs <= |ins[n]|
      modifies out
      ensures LongEnough(ins, blocksize, noutputItems / (blocksize * ninputs))
      ensures out[..noutputItems] == Weave(ins, blocksize, noutputItems / (blocksize * ninputs))
      ensures out[noutputItems..] == old(out[noutputItems..])
      ensures produced == noutputItems && Times(consumedEach, ninputs) == produced
    {
      ghost var rounds := noutputItems / (blocksize * ninputs);
      WholeRounds(noutputItems, blocksize, ninputs);
      WeaveRounds(ins, out, noutputItems / blocksize, rounds);
      ghost var first, all := old(out[..]), out[..];
      assert out[..noutputItems] == all[..noutputItems] && out[noutputItems..] == all[noutputItems..];
      assert old(out[noutputItems..]) == first[noutputItems..];
      produced, consumedEach := noutputItems, noutputItems / ninputs;
    }

    /** The outer loop. */
    method WeaveRounds<T>(ins: seq<seq<T>>, out: array<T>, noutputBlocks: nat, ghost rounds: nat)
      requires |ins| == ninputs > 0 && noutputBlocks == Times(rounds, ninputs) && LongEnough(ins, blocksize, rounds)
      requires Times(rounds, Times(ninputs, blocksize)) <= out.Length
      modifies out
      ensures Woven(out[..], old(out[..]), ins, blocksize, rounds)
    {
      var at := seq(ninputs, _ => 0);
      var i, pos := 0, 0;
      ghost var r, first := 0, out[..];
      while i < noutputBlocks
        invariant r <= rounds && i == Times(r, ninputs) && pos == Times(r, Times(ninputs, blocksize))
        invariant ReadUpTo(at, ninputs, r, 0, blocksize)
        invariant Woven(out[..], first, ins, blocksize, r)
        decreases rounds - r
      {
        RoundFits(ins, blocksize, r, rounds);
        ghost var now := out[..];
        at, pos := WeaveRound(ins, out, at, pos, r);
        WovenFurther(now, out[..], first, ins, blocksize, r);
        i := i + ninputs;
        r := r + 1;
      }
      RoundsOrder(r, rounds, ninputs);
    }

    /** One turn of the outer loop: one block of every input. */
    method WeaveRound<T>(ins: seq<seq<T>>, out: array<T>, at0: seq<nat>, pos0: nat, ghost r: nat)
      returns (at: seq<nat>, pos: nat)
      requires |ins| == ninputs && LongEnough(ins, blocksize, r + 1) && ReadUpTo(at0, ninputs, r, 0, blocksize)
      requires pos0 + Times(ninputs, blocksize) <= out.Length
      modifies out
      ensures ReadUpTo(at, ninputs, r + 1, 0, blocksize) && pos == pos0 + Times(ninputs, blocksize)
      ensures Appended(old(out[..]), out[..], pos0, Row(ins, blocksize, r, ninputs))
    {
      at, pos := at0, pos0;
      ghost var was := out[..];
      var n := 0;
      while n < ninputs
        invariant n <= ninputs && pos == pos0 + Times(n, blocksize)
        invariant ReadUpTo(at, ninputs, r, n, blocksize)
        invariant Appended(was, out[..], pos0, Row(ins, blocksize, r, n))
      {
        Within(n, ninputs, blocksize);
        WeaveBlock(ins, out, at[n], pos, r, n, was, pos0);
        pos := pos + blocksize;
        ReadFurther(at, ninputs, r, n, blocksize);
        at := at[n := at[n] + blocksize];
        n := n + 1;
      }
    }

    /** One turn of the inner loop: one block of input n, behind those of the inputs before it. */
    method WeaveBlock<T>(ins: seq<seq<T>>, out: array<T>, at: nat, pos: nat, ghost r: nat, n: nat,
                         ghost was: seq<T>, ghost pos0: nat)
      requires n < |ins| && LongEnough(ins, blocksize, r + 1) && at == Times(r, blocksize)
      requires pos == pos0 + Times(n, blocksize) && pos + blocksize <= out.Length
      requires Appended(was, out[..], pos0, Row(ins, blocksize, r, n))
      modifies out
      ensures Appended(was, out[..], pos0, Row(ins, blocksize, r, n + 1))
    {
      ghost var before := out[..];
      CopyBlock(ins[n], at, out, pos, blocksize);
      AppendedFurther(was, before, out[..], pos0, Row(ins, blocksize, r, n), Slice(ins[n], at, blocksize));
    }
  }

  /** Where the inputs are read from, n blocks into round r. */
  predicate ReadUpTo(at: seq<nat>, ninputs: nat, r: nat, n: nat, block: nat) {
    |at| == ninputs && forall m :: 0 <= m < ninputs ==> at[m] == Times(if m < n then r + 1 else r, block)
  }

  lemma ReadFurther(at: seq<nat>, ninputs: nat, r: nat, n: nat, block: nat)
    requires n < ninputs && ReadUpTo(at, ninputs, r, n, block)
    ensures ReadUpTo(at[n := at[n] + block], ninputs, r, n + 1, block)
  {
  }

  /** The first r rounds are in place, and what is behind them is as before. */
  ghost predicate Woven<T>(now: seq<T>, first: seq<T>, ins: seq<seq<T>>, block: nat, r: nat) {
    && LongEnough(ins, block, r) && Times(r, Times(|ins|, block)) <= |now| == |first|
    && now[..Times(r, Times(|ins|, block))] == Weave(ins, block, r)
    && now[Times(r, Times(|ins|, block))..] == first[Times(r, Times(|ins|, block))..]
  }

  /** `more` was written at `pos`, and the items before and behind it are as before. */
  ghost predicate Appended<T>(was: seq<T>, now: seq<T>, pos: nat, more: seq<T>) {
    pos + |more| <= |was| && now == was[..pos] + more + was[pos + |more|..]
  }

  lemma AppendedFurther<T>(was: seq<T>, before: seq<T>, now: seq<T>, pos: nat, more: seq<T>, next: seq<T>)
    requires Appended(was, before, pos, more) && pos + |more| + |next| <= |was|
    requires now == before[..pos + |more|] + next + before[pos + |more| + |next|..]
    ensures Appended(was, now, pos, more + next)
  {
  }

  lemma WovenFurther<T>(now: seq<T>, next: seq<T>, first: seq<T>, ins: seq<seq<T>>, block: nat, r: nat)
    requires Woven(now, first, ins, block, r) && LongEnough(ins, block, r + 1)
    requires Appended(now, next, Times(r, Times(|ins|, block)), Row(ins, block, r, |ins|))
    ensures Woven(next, first, ins, block, r + 1)
  {
    WeaveStep(ins, block, r);
    FrontGrows(now, next, first, Times(r, Times(|ins|, block)), Row(ins, block, r, |ins|));
  }

  lemma FrontGrows<T>(now: seq<T>, next: seq<T>, first: seq<T>, here: nat, row: seq<T>)
    requires Appended(now, next, here, row) && |first| == |now| && now[here..] == first[here..]
    ensures |next| == |now| && next[..here + |row|] == now[..here] + row
    ensures next[here + |row|..] == first[here + |row|..]
  {
    assert next[here + |row|..] == now[here..][|row|..] && first[here + |row|..] == first[here..][|row|..];
  }

  method CopyBlock<T>(src: seq<T>, from: nat, dest: array<T>, to: nat, count: nat)
    requires from + count <= |src| && to + count <= dest.Length
    modifies dest
    ensures dest[..] == old(dest[..])[..to] + Slice(src, from, count) + old(dest[..])[to + count..]
  {
    var k := 0;
    while k < count
      invariant k <= count
      invariant forall j :: 0 <= j < dest.Length ==>
                dest[j] == if to <= j < to + k then src[from + (j - to)] else old(dest[j])
    {
      dest[to + k] := src[from + k];
      k := k + 1;
    }
  }

  // ------------------------------------------------------------------------------------
  // The deinterleaving block
  // ------------------------------------------------------------------------------------

  /** The first n items of one output. */
  ghost function Output<T>(outs: array2<T>, o: nat, n: nat): (s: seq<T>)
    requires o < outs.Length0 && n <= outs.Length1
    reads outs
    ensures |s| == n
  {
    seq(n, k requires 0 <= k < n reads outs => outs[o, k])
  }

  /** How many blocks output o has, `acc` turns into round `skip`. */
  function BlocksGiven(o: nat, skip: nat, acc: nat): nat {
    if o < acc then skip + 1 else skip
  }

  /** Output o holds its part of its first g rounds. */
  ghost predicate PartDone<T>(outs: array2<T>, input: seq<T>, block: nat, n: nat, rounds: nat, o: nat, g: nat)
    requires o < n == outs.Length0 && g <= rounds
    requires Times(rounds, block) <= outs.Length1 && Times(rounds, Times(n, block)) <= |input|
    reads outs
  {
    TimesGrows(g, rounds, block);
    TimesGrows(g, rounds, Times(n, block));
    Output(outs, o, Times(g, block)) == Unweave(input, block, n, o, g)
  }

  ghost predicate Apart<T>(outs: array2<T>, input: seq<T>, block: nat, n: nat, rounds: nat, skip: nat, acc: nat,
                           produced: seq<nat>)
    reads outs
  {
    && n == outs.Length0 && n == |produced|
    && Times(rounds, block) <= outs.Length1 && Times(rounds, Times(n, block)) <= |input|
    && acc <= n && skip <= rounds && (acc > 0 ==> skip < rounds)
    && forall o :: 0 <= o < n ==>
         && PartDone(outs, input, block, n, rounds, o, BlocksGiven(o, skip, acc))
         && produced[o] == Times(BlocksGiven(o, skip, acc), block)
  }

  /** A full pass is the next round's start. */
  lemma PassIsRound<T>(outs: array2<T>, input: seq<T>, block: nat, n: nat, rounds: nat, skip: nat, produced: seq<nat>)
    requires n > 0 && Apart(outs, input, block, n, rounds, skip, n, produced)
    ensures Apart(outs, input, block, n, rounds, skip + 1, 0, produced)
  {
    var next := skip + 1;
    forall o | 0 <= o < n ensures BlocksGiven(o, skip, n) == BlocksGiven(o, next, 0) {
    }
  }

  /** Where the turns go on after one: at the next output, or in the next round. */
  lemma TurnIsDone<T>(outs: array2<T>, input: seq<T>, block: nat, n: nat, rounds: nat, skip: nat, acc: nat,
                      produced: seq<nat>)
    requires n > 0 && Apart(outs, input, block, n, rounds, skip, acc, produced)
    ensures Apart(outs, input, block, n, rounds, if acc == n then skip + 1 else skip, if acc == n then 0 else acc,
                  produced)
  {
    if acc == n {
      PassIsRound(outs, input, block, n, rounds, skip, produced);
    }
  }

  lemma AllApart<T>(outs: array2<T>, input: seq<T>, block: nat, n: nat, rounds: nat, acc: nat, produced: seq<nat>)
    requires Apart(outs, input, block, n, rounds, rounds, acc, produced)
    ensures forall o :: 0 <= o < n ==>
              && Output(outs, o, Times(rounds, block)) == Unweave(input, block, n, o, rounds)
              && produced[o] == Times(rounds, block)
  {
    forall o | 0 <= o < n
      ensures Output(outs, o, Times(rounds, block)) == Unweave(input, block, n, o, rounds) &&
              produced[o] == Times(rounds, block)
    {
      assert PartDone(outs, input, block, n, rounds, o, BlocksGiven(o, rounds, 0));
    }
  }

  /** The block at `at` of the input goes behind what output o has. */
  method CopyToOutput<T>(input: seq<T>, at: nat, outs: array2<T>, o: nat, to: nat, count: nat)
    requires at + count <= |input| && o < outs.Length0 && to + count <= outs.Length1
    modifies outs
    ensures forall p, k: nat :: 0 <= p < outs.Length0 && p != o && k <= outs.Length1 ==>
            Output(outs, p, k) == old(Output(outs, p, k))
    ensures Output(outs, o, to + count) == old(Output(outs, o, to)) + Slice(input, at, count)
  {
    var j := 0;
    while j < count
      invariant j <= count
      invariant forall p, k :: 0 <= p < outs.Length0 && 0 <= k < outs.Length1 ==>
        outs[p, k] == if p == o && to <= k < to + j then input[at + (k - to)] else old(outs[p, k])
    {
      outs[o, to + j] := input[at + j];
      j := j + 1;
    }
  }

  /** The next block of the input, the one of round `skip` for output acc, goes to that output. */
  method FillPart<T>(input: seq<T>, outs: array2<T>, block: nat, n: nat, ghost rounds: nat, skip: nat, acc: nat,
                     at: nat, to: nat)
    requires acc < n == outs.Length0 && skip < rounds && at == Place(skip, n, acc, block) && to == Times(skip, block)
    requires Times(rounds, block) <= outs.Length1 && Times(rounds, Times(n, block)) <= |input|
    requires PartDone(outs, input, block, n, rounds, acc, skip)
    modifies outs
    ensures PartDone(outs, input, block, n, rounds, acc, skip + 1)
    ensures forall o, k: nat :: 0 <= o < n && o != acc && k <= outs.Length1 ==>
            Output(outs, o, k) == old(Output(outs, o, k))
  {
    Within(acc, n, block);
    TimesGrows(skip + 1, rounds, block);
    TimesGrows(skip + 1, rounds, Times(n, block));
    CopyToOutput(input, at, outs, acc, to, block);
    UnweaveStep(input, block, n, acc, skip);
  }

  /** The next block of the input to the next output. */
  method TakeTurn<T>(input: seq<T>, outs: array2<T>, block: nat, n: nat, ghost rounds: nat, skip: nat, acc: nat,
                     at: nat, to: nat, ghost produced: seq<nat>)
    requires acc < n && skip < rounds && at == Place(skip, n, acc, block) && to == Times(skip, block)
    requires Apart(outs, input, block, n, rounds, skip, acc, produced)
    modifies outs
    ensures Apart(outs, input, block, n, rounds, skip, acc + 1, produced[acc := produced[acc] + block])
  {
    assert PartDone(outs, input, block, n, rounds, acc, BlocksGiven(acc, skip, acc));
    FillPart(input, outs, block, n, rounds, skip, acc, at, to);
    var next := acc + 1;
    forall o | 0 <= o < n && o != acc
      ensures PartDone(outs, input, block, n, rounds, o, BlocksGiven(o, skip, next))
    {
      var g := BlocksGiven(o, skip, acc);
      TimesGrows(g, rounds, block);
      assert old(PartDone(outs, input, block, n, rounds, o, g));
    }
  }

  class DeinterleaveBlock {
    const blocksize: nat
    var noutputs: nat
    var currentOutput: nat

    constructor (blocksize: nat)
      ensures this.blocksize == blocksize && noutputs == 0 && currentOutput == 0
    {
      this.blocksize := blocksize;
      noutputs := 0;
      currentOutput := 0;
    }

    method CheckTopology(ninputs: nat, noutputs: nat) returns (ok: bool)
      modifies this`noutputs
      ensures ok && this.noutputs == noutputs
    {
      this.noutputs := noutputs;
      ok := true;
    }

    function Forecast(noutputItems: nat): nat
      reads this
    {
      noutputItems * noutputs
    }

    /** One turn of the loop: a block is copied and produced, and the current output moves on. */
    method Turn<T>(input: seq<T>, outs: array2<T>, ghost rounds: nat, skip0: nat, acc0: nat, count: nat,
                   produced0: seq<nat>)
      returns (skip: nat, acc: nat, produced: seq<nat>)
      requires currentOutput == acc0 < noutputs && skip0 < rounds && count == Place(skip0, noutputs, acc0, blocksize)
      requires Apart(outs, input, blocksize, noutputs, rounds, skip0, acc0, produced0)
      modifies outs, this`currentOutput
      ensures currentOutput == acc < noutputs && count + blocksize == Place(skip, noutputs, acc, blocksize)
      ensures Apart(outs, input, blocksize, noutputs, rounds, skip, acc, produced)
    {
      skip := skip0;
      TimesIsProduct(skip, blocksize);
      NextOutput(acc0, noutputs);
      PlaceMoves(skip, noutputs, acc0, blocksize);
      var to := skip * blocksize;
      TakeTurn(input, outs, blocksize, noutputs, rounds, skip, acc0, count, to, produced0);
      produced := produced0[currentOutput := produced0[currentOutput] + blocksize];
      acc := acc0 + 1;
      TurnIsDone(outs, input, blocksize, noutputs, rounds, skip, acc, produced);
      currentOutput := (currentOutput + 1) % noutputs;
      if acc >= noutputs {
        skip := skip + 1;
        acc := 0;
      }
    }

    /**
     Takes whole rounds apart. Starting at output 0 it ends at output 0, every output is given as
     many items as asked for, and together they are the items consumed.
     */
    method GeneralWork<T>(noutputItems: nat, input: seq<T>, outs: array2<T>) returns (produced: seq<nat>, consumed: nat)
      requires blocksize > 0 && noutputs > 0 && currentOutput == 0
      requires noutputItems % blocksize == 0 && Forecast(noutputItems) <= |input|
      requires outs.Length0 == noutputs && noutputItems <= outs.Length1
      modifies outs, this`currentOutput
      ensures currentOutput == 0
      ensures consumed == Forecast(noutputItems) == Times(noutputItems / blocksize, Times(noutputs, blocksize))
      ensures forall o :: 0 <= o < noutputs ==>
                Output(outs, o, noutputItems) == Unweave(input, blocksize, noutputs, o, noutputItems / blocksize)
      ensures |produced| == noutputs && forall o :: 0 <= o < noutputs ==> produced[o] == noutputItems
    {
      ghost var rounds: nat := noutputItems / blocksize;
      TotalRounds(noutputItems, blocksize, noutputs);
      var totalcount := noutputItems * noutputs;
      var count: nat, skip: nat, acc: nat := 0, 0, 0;
      produced := seq(noutputs, _ => 0);
      assert forall o :: 0 <= o < noutputs ==>
        PartDone(outs, input, blocksize, noutputs, rounds, o, BlocksGiven(o, 0, 0));
      while count < totalcount
        invariant acc < noutputs && currentOutput == acc
        invariant Apart(outs, input, blocksize, noutputs, rounds, skip, acc, produced)
        invariant count == Place(skip, noutputs, acc, blocksize)
        decreases totalcount - count
      {
        Unfinished(skip, acc, rounds, noutputs, blocksize);
        skip, acc, produced := Turn(input, outs, rounds, skip, acc, count, produced);
        count := count + blocksize;
      }
      Unfinished(skip, acc, rounds, noutputs, blocksize);
      AllApart(outs, input, blocksize, noutputs, rounds, acc, produced);
      consumed := totalcount;
    }
  }

  lemma TotalRounds(items: nat, block: nat, n: nat)
    requires block > 0 && items % block == 0
    ensures items == Times(items / block, block) && items * n == Times(items / block, Times(n, block))
  {
    var rounds := items / block;
    TimesIsProduct(rounds, block);
    TimesIsProduct(n, block);
    TimesIsProduct(rounds, Times(n, block));
    assert (rounds * block) * n == rounds * (n * block);
  }

  /** Turns are left exactly while the rounds are not done. */
  lemma Unfinished(skip: nat, acc: nat, rounds: nat, n: nat, block: nat)
    requires acc < n && block > 0 && skip <= rounds && (acc > 0 ==> skip < rounds)
    ensures Place(skip, n, acc, block) < Times(rounds, Times(n, block)) <==> skip < rounds
  {
    Within(acc, n, block);
    if skip < rounds {
      TimesGrows(skip + 1, rounds, Times(n, block));
    }
  }

  lemma PlaceMoves(skip: nat, n: nat, acc: nat, block: nat)
    requires acc < n
    ensures Place(skip, n, acc, block) + block ==
            if acc + 1 == n then Place(skip + 1, n, 0, block) else Place(skip, n, acc + 1, block)
  {
  }

  lemma NextOutput(acc: nat, n: nat)
    requires acc < n
    ensures (acc + 1) % n == if acc + 1 == n then 0 else acc + 1
  {
    if acc + 1 == n {
      DivisionUnique(n, 1, 0, n);
    } else {
      DivisionUnique(acc + 1, 0, acc + 1, n);
    }
  }
}
