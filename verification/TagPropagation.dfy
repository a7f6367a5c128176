/**
 Moving tags downstream after a block's work: the tags of the items each input just consumed are
 added to the outputs, at offsets scaled by the block's rate.
 */
module TagPropagation {
  import opened Rounding
  import opened TagRuns
  import opened Tags

  datatype Policy = Dont | AllToAll | OneToOne | Custom

  /** Output items per input item. */
  datatype Rate = Rate(num: nat, den: nat)

  /** One call of add_item_tag on an output: the tag, and the input it came in on. */
  datatype Copy = Copy(input: nat, tag: Tag)

  // ------------------------------------------------------------------------------------
  // Offsets
  // ------------------------------------------------------------------------------------

  function Scale(offset: nat, rate: Rate): nat
    requires rate.den > 0
  {
    if rate.num == rate.den then offset else (2 * offset * rate.num + rate.den) / (2 * rate.den)
  }

  /** The same in real arithmetic, for a block whose rate is updated as it runs. */
  function RealScale(offset: nat, rrate: real): int {
    ((offset as real) * rrate + 0.5).Floor
  }

  /** Rational and real arithmetic give the same offset. */
  lemma RealScaleAgrees(offset: nat, rate: Rate, rrate: real)
    requires rate.den > 0 && rrate * (rate.den as real) == rate.num as real
    ensures RealScale(offset, rrate) == Scale(offset, rate)
  {
    var x := (offset as real) * rrate;
    RealProduct(offset, rate, rrate);
    ScaleSpan(offset, rate);
    NearestFloor(x, Scale(offset, rate), offset * rate.num, rate.den);
  }

  lemma RealProduct(offset: nat, rate: Rate, rrate: real)
    requires rrate * (rate.den as real) == rate.num as real
    ensures ((offset as real) * rrate) * (rate.den as real) == (offset * rate.num) as real
  {
    AssociateReal(offset as real, rrate, rate.den as real);
    IntegerProduct(offset, rate.num);
  }

  lemma ScaleSpan(offset: nat, rate: Rate)
    requires rate.den > 0
    ensures var got := 2 * (Scale(offset, rate) * rate.den);
            got <= 2 * (offset * rate.num) + rate.den < got + 2 * rate.den
  {
    if rate.num != rate.den {
      assert 2 * offset * rate.num == 2 * (offset * rate.num);
      DivisionSpan(2 * (offset * rate.num) + rate.den, rate.den);
    }
  }

  lemma AssociateReal(a: real, b: real, c: real)
    ensures (a * b) * c == a * (b * c)
  {
  }

  lemma IntegerProduct(a: int, b: int)
    ensures (a * b) as real == (a as real) * (b as real)
  {
  }

  lemma DistributeReal(x: real, y: real, r: real)
    ensures (x + y) * r == x * r + y * r
  {
  }

  /** x is e / d; q is the integer nearest to it, halves going up. */
  lemma NearestFloor(x: real, q: int, e: int, d: nat)
    requires d > 0 && x * (d as real) == e as real
    requires 2 * (q * d) <= 2 * e + d < 2 * (q * d) + 2 * d
    ensures (x + 0.5).Floor == q
  {
    var r := d as real;
    IntegerProduct(q, d);
    DistributeReal(x, 0.5, r);
    DistributeReal(q as real, 1.0, r);
    CancelReal(q as real, x + 0.5, r);
    CancelRealStrict(x + 0.5, (q as real) + 1.0, r);
  }

  lemma CancelReal(x: real, y: real, r: real)
    requires r > 0.0 && x * r <= y * r
    ensures x <= y
  {
  }

  lemma CancelRealStrict(x: real, y: real, r: real)
    requires r > 0.0 && x * r < y * r
    ensures x < y
  {
  }

  lemma DivisionOrder(a: nat, b: nat, m: nat)
    requires m > 0 && a <= b
    ensures a / m <= b / m
  {
    assert a == (a / m) * m + a % m && b == (b / m) * m + b % m;
    if b / m < a / m {
      Distribute(a / m, b / m, m);
      ProductAtLeast(a / m - b / m, m);
    }
  }

  lemma DivisionSpan(a: nat, d: nat)
    requires d > 0
    ensures var got := 2 * ((a / (2 * d)) * d); got <= a < got + 2 * d
  {
    var q := a / (2 * d);
    assert a == q * (2 * d) + a % (2 * d);
    assert q * (2 * d) == 2 * (q * d);
  }

  /** The new offset is the nearest to offset * rate, halves going up; order is kept. */
  lemma ScaleIsNearest(offset: nat, later: nat, rate: Rate)
    requires rate.den > 0 && offset <= later
    ensures var exact, got := 2 * (offset * rate.num), 2 * (Scale(offset, rate) * rate.den);
            got - rate.den <= exact < got + rate.den
    ensures Scale(offset, rate) <= Scale(later, rate)
  {
    ScaleSpan(offset, rate);
    ScaleGrows(offset, later, rate);
  }

  lemma ScaleGrows(offset: nat, later: nat, rate: Rate)
    requires rate.den > 0 && offset <= later
    ensures Scale(offset, rate) <= Scale(later, rate)
  {
    if rate.num != rate.den {
      ProductOrder(2 * offset, 2 * later, rate.num);
      DivisionOrder(2 * offset * rate.num + rate.den, 2 * later * rate.num + rate.den, 2 * rate.den);
    }
  }

  lemma ProductOrder(a: nat, b: nat, n: nat)
    requires a <= b
    ensures a * n <= b * n
  {
    Distribute(b, a, n);
    assert (b - a) * n >= 0;
  }

  // ------------------------------------------------------------------------------------
  // One iteration
  // ------------------------------------------------------------------------------------

  function Scaled(t: Tag, rate: Rate): Tag
    requires rate.den > 0
  {
    t.(offset := Scale(t.offset, rate))
  }

  function CopiesOf(input: nat, found: seq<Tag>, rate: Rate): seq<Copy>
    requires rate.den > 0
  {
    if found == [] then []
    else CopiesOf(input, found[..|found| - 1], rate) + [Copy(input, Scaled(found[|found| - 1], rate))]
  }

  function AllCopies(found: seq<seq<Tag>>, rate: Rate): seq<Copy>
    requires rate.den > 0
  {
    if found == [] then []
    else AllCopies(found[..|found| - 1], rate) + CopiesOf(|found| - 1, found[|found| - 1], rate)
  }

  /** What output o is sent, given the tags found on every input. */
  function Sent(policy: Policy, o: nat, noutputs: nat, found: seq<seq<Tag>>, rate: Rate): seq<Copy>
    requires rate.den > 0
  {
    if policy.AllToAll? then AllCopies(found, rate)
    else if policy.OneToOne? && o < |found| == noutputs then CopiesOf(o, found[o], rate)
    else []
  }

  /** What output o has been sent once the first i inputs are done. */
  function SentUpTo(policy: Policy, o: nat, found: seq<seq<Tag>>, rate: Rate, i: nat): seq<Copy>
    requires rate.den > 0 && i <= |found|
  {
    if policy.AllToAll? then AllCopies(found[..i], rate) else if o < i then CopiesOf(o, found[o], rate) else []
  }

  lemma SentMore(policy: Policy, found: seq<seq<Tag>>, rate: Rate, i: nat)
    requires rate.den > 0 && i < |found|
    ensures forall o: nat :: SentUpTo(policy, o, found, rate, i + 1) ==
              if policy.AllToAll? || o == i then SentUpTo(policy, o, found, rate, i) + CopiesOf(i, found[i], rate)
              else SentUpTo(policy, o, found, rate, i)
  {
    assert found[..i + 1][..i] == found[..i] && found[..i + 1][i] == found[i];
  }

  /** The integer nearest to x * num / den, halves going up. */
  predicate IsNearest(y: nat, x: nat, num: nat, den: nat) {
    2 * (y * den) <= 2 * (x * num) + den < 2 * (y * den) + 2 * den
  }

  /** c is tag t of input i as it goes out: same serial number, payload and marks, at the scaled offset. */
  predicate IsCopy(c: Copy, i: nat, t: Tag, rate: Rate) {
    && c.input == i && c.tag.serial == t.serial && c.tag.payload == t.payload && c.tag.deleted == t.deleted
    && IsNearest(c.tag.offset, t.offset, rate.num, rate.den)
  }

  /** Tags of input i are meant for output o. */
  predicate Goes(policy: Policy, i: nat, o: nat, ninputs: nat, noutputs: nat) {
    policy.AllToAll? || (policy.OneToOne? && ninputs == noutputs && i == o)
  }

  /** How many tags the first i inputs send output o. */
  function SentBefore(policy: Policy, o: nat, noutputs: nat, found: seq<seq<Tag>>, i: nat): nat
    requires i <= |found|
  {
    if i == 0 then 0
    else
      SentBefore(policy, o, noutputs, found, i - 1) +
      (if Goes(policy, i - 1, o, |found|, noutputs) then |found[i - 1]| else 0)
  }

  lemma {:induction false} CopiesOfAre(input: nat, found: seq<Tag>, rate: Rate)
    requires rate.den > 0
    ensures var cs := CopiesOf(input, found, rate);
            |cs| == |found| && forall j :: 0 <= j < |found| ==> IsCopy(cs[j], input, found[j], rate)
  {
    if found != [] {
      CopiesOfAre(input, found[..|found| - 1], rate);
      ScaleSpan(found[|found| - 1].offset, rate);
    }
  }

  /** The first i inputs have sent this much to an output that gets all tags. */
  lemma {:induction false} AllCopiesAre(found: seq<seq<Tag>>, rate: Rate, o: nat, noutputs: nat, all: seq<seq<Tag>>,
                                        i: nat, j: nat)
    requires rate.den > 0 && found <= all
    ensures var cs := AllCopies(found, rate);
            |cs| == SentBefore(AllToAll, o, noutputs, all, |found|) &&
            (i < |found| && j < |found[i]| ==>
              var at := SentBefore(AllToAll, o, noutputs, all, i) + j;
              at < |cs| && IsCopy(cs[at], i, found[i][j], rate))
  {
    if found != [] {
      var k := |found| - 1;
      AllCopiesAre(found[..k], rate, o, noutputs, all, i, j);
      CopiesOfAre(k, found[k], rate);
    }
  }

  lemma {:induction false} OneToOneBefore(o: nat, noutputs: nat, found: seq<seq<Tag>>, i: nat)
    requires i <= |found|
    ensures SentBefore(OneToOne, o, noutputs, found, i) ==
            if o < i && |found| == noutputs then |found[o]| else 0
  {
    if i > 0 {
      OneToOneBefore(o, noutputs, found, i - 1);
    }
  }

  lemma {:induction false} NothingBefore(policy: Policy, o: nat, noutputs: nat, found: seq<seq<Tag>>, i: nat)
    requires i <= |found| && (policy.Dont? || policy.Custom?)
    ensures SentBefore(policy, o, noutputs, found, i) == 0
  {
    if i > 0 {
      NothingBefore(policy, o, noutputs, found, i - 1);
    }
  }

  /**
   What output o is sent is, input by input and in the order they were found, one copy of every tag found on
   an input meant for it, and nothing else.
   */
  lemma SentIsCopies(policy: Policy, o: nat, noutputs: nat, found: seq<seq<Tag>>, rate: Rate, i: nat, j: nat)
    requires rate.den > 0 && o < noutputs
    ensures |Sent(policy, o, noutputs, found, rate)| == SentBefore(policy, o, noutputs, found, |found|)
    ensures i < |found| && j < |found[i]| && Goes(policy, i, o, |found|, noutputs) ==>
              var at := SentBefore(policy, o, noutputs, found, i) + j;
              at < |Sent(policy, o, noutputs, found, rate)| &&
              IsCopy(Sent(policy, o, noutputs, found, rate)[at], i, found[i][j], rate)
  {
    match policy {
      case AllToAll => AllCopiesAre(found, rate, o, noutputs, found, i, j);
      case OneToOne =>
        OneToOneBefore(o, noutputs, found, |found|);
        if o < |found| == noutputs {
          CopiesOfAre(o, found[o], rate);
          OneToOneBefore(o, noutputs, found, o);
        }
      case _ => NothingBefore(policy, o, noutputs, found, |found|);
    }
  }

  /** Every copy sent is of a tag found on an input meant for the output. */
  lemma SentIsFromFound(policy: Policy, o: nat, noutputs: nat, found: seq<seq<Tag>>, rate: Rate, c: Copy)
    requires rate.den > 0 && o < noutputs && c in Sent(policy, o, noutputs, found, rate)
    ensures c.input < |found| && Goes(policy, c.input, o, |found|, noutputs)
    ensures exists t :: t in found[c.input] && IsCopy(c, c.input, t, rate)
  {
    if policy.AllToAll? {
      AllCopiesAreFromFound(found, rate, c);
    } else {
      CopiesOfAre(o, found[o], rate);
      var k :| 0 <= k < |CopiesOf(o, found[o], rate)| && CopiesOf(o, found[o], rate)[k] == c;
      assert found[o][k] in found[o];
    }
  }

  lemma {:induction false} AllCopiesAreFromFound(found: seq<seq<Tag>>, rate: Rate, c: Copy)
    requires rate.den > 0 && c in AllCopies(found, rate)
    ensures c.input < |found| && exists t :: t in found[c.input] && IsCopy(c, c.input, t, rate)
  {
    var k := |found| - 1;
    if c in AllCopies(found[..k], rate) {
      AllCopiesAreFromFound(found[..k], rate, c);
    } else {
      CopiesOfAre(k, found[k], rate);
      var j :| 0 <= j < |CopiesOf(k, found[k], rate)| && CopiesOf(k, found[k], rate)[j] == c;
      assert found[k][j] in found[k];
    }
  }

  /** `calls` lists, output by output, the tags added. False ends the block. */
  method PropagateTags(policy: Policy, found: seq<seq<Tag>>, rate: Rate, rrate: real, useReal: bool,
                       calls: array<seq<Copy>>)
    returns (ok: bool)
    requires rate.den > 0 && rrate * (rate.den as real) == rate.num as real
    modifies calls
    ensures ok <==> !(policy.OneToOne? && calls.Length > 0 && |found| != calls.Length)
    ensures forall o :: 0 <= o < calls.Length ==> calls[o] == old(calls[o]) + Sent(policy, o, calls.Length, found, rate)
    ensures forall o, c :: 0 <= o < calls.Length && c in Sent(policy, o, calls.Length, found, rate) ==>
              c.input < |found| && exists t :: t in found[c.input] && IsCopy(c, c.input, t, rate)
  {
    forall o, c | 0 <= o < calls.Length && c in Sent(policy, o, calls.Length, found, rate)
      ensures c.input < |found| && exists t :: t in found[c.input] && IsCopy(c, c.input, t, rate)
    {
      SentIsFromFound(policy, o, calls.Length, found, rate, c);
    }
    if calls.Length == 0 || policy.Dont? || policy.Custom? {
      return true;
    }
    if policy.OneToOne? && |found| != calls.Length {
      return false;
    }
    var i := 0;
    assert found[..0] == [];
    while i < |found|
      invariant i <= |found|
      invariant forall o :: 0 <= o < calls.Length ==>
        calls[o] == old(calls[o]) + SentUpTo(policy, o, found, rate, i)
    {
      SentMore(policy, found, rate, i);
      AddInput(policy, i, found, rate, rrate, useReal, calls);
      i := i + 1;
    }
    assert found[..i] == found;
    ok := true;
  }

  /** One turn of the loop over the inputs. */
  method AddInput(policy: Policy, i: nat, found: seq<seq<Tag>>, rate: Rate, rrate: real, useReal: bool,
                  calls: array<seq<Copy>>)
    requires rate.den > 0 && rrate * (rate.den as real) == rate.num as real && i < |found|
    requires policy.AllToAll? || i < calls.Length
    modifies calls
    ensures forall o :: 0 <= o < calls.Length ==>
              calls[o] == old(calls[o]) + (if policy.AllToAll? || o == i then CopiesOf(i, found[i], rate) else [])
  {
    if policy.AllToAll? {
      AddToAll(i, found[i], rate, rrate, useReal, calls);
    } else {
      AddToOne(i, found[i], rate, rrate, useReal, calls, i);
    }
  }

  /** The new tag of the branch taken: unchanged at rate one, else by real or by rational arithmetic. */
  method NewTag(t: Tag, rate: Rate, rrate: real, useReal: bool) returns (r: Tag)
    requires rate.den > 0 && rrate * (rate.den as real) == rate.num as real
    ensures r == Scaled(t, rate)
  {
    if rate.num == rate.den {
      r := t;
    } else if useReal {
      RealScaleAgrees(t.offset, rate, rrate);
      r := t.(offset := RealScale(t.offset, rrate));
    } else {
      r := t.(offset := Scale(t.offset, rate));
    }
  }

  method AddToAll(input: nat, found: seq<Tag>, rate: Rate, rrate: real, useReal: bool, calls: array<seq<Copy>>)
    requires rate.den > 0 && rrate * (rate.den as real) == rate.num as real
    modifies calls
    ensures forall o :: 0 <= o < calls.Length ==> calls[o] == old(calls[o]) + CopiesOf(input, found, rate)
  {
    var t := 0;
    assert found[..0] == [];
    while t < |found|
      invariant t <= |found|
      invariant forall o :: 0 <= o < calls.Length ==> calls[o] == old(calls[o]) + CopiesOf(input, found[..t], rate)
    {
      var newTag := NewTag(found[t], rate, rrate, useReal);
      var tag := Copy(input, newTag);
      var o := 0;
      while o < calls.Length
        invariant o <= calls.Length
        invariant forall p :: 0 <= p < calls.Length ==>
          calls[p] == old(calls[p]) + CopiesOf(input, found[..t], rate) + (if p < o then [tag] else [])
      {
        calls[o] := calls[o] + [tag];
        o := o + 1;
      }
      assert found[..t + 1][..t] == found[..t];
      t := t + 1;
    }
    assert found[..t] == found;
  }

  method AddToOne(input: nat, found: seq<Tag>, rate: Rate, rrate: real, useReal: bool, calls: array<seq<Copy>>, o: nat)
    requires rate.den > 0 && rrate * (rate.den as real) == rate.num as real && o < calls.Length
    modifies calls
    ensures calls[o] == old(calls[o]) + CopiesOf(input, found, rate)
    ensures forall p :: 0 <= p < calls.Length && p != o ==> calls[p] == old(calls[p])
  {
    var t := 0;
    assert found[..0] == [];
    while t < |found|
      invariant t <= |found| && calls[o] == old(calls[o]) + CopiesOf(input, found[..t], rate)
      invariant forall p :: 0 <= p < calls.Length && p != o ==> calls[p] == old(calls[p])
    {
      var newTag := NewTag(found[t], rate, rrate, useReal);
      calls[o] := calls[o] + [Copy(input, newTag)];
      assert found[..t + 1][..t] == found[..t];
      t := t + 1;
    }
    assert found[..t] == found;
  }

  // ------------------------------------------------------------------------------------
  // Every iteration
  // ------------------------------------------------------------------------------------

  /** How often insertion k of input i was sent. */
  function Copies(cs: seq<Copy>, i: nat, k: nat): nat {
    if cs == [] then 0
    else
      var last := cs[|cs| - 1];
      Copies(cs[..|cs| - 1], i, k) + (if last.input == i && last.tag.serial == k then 1 else 0)
  }

  lemma {:induction false} CopiesConcat(a: seq<Copy>, b: seq<Copy>, i: nat, k: nat)
    ensures Copies(a + b, i, k) == Copies(a, i, k) + Copies(b, i, k)
    decreases |b|
  {
    if b == [] {
      assert a + b == a;
    } else {
      assert (a + b)[..|a + b| - 1] == a + b[..|b| - 1];
      CopiesConcat(a, b[..|b| - 1], i, k);
    }
  }

  lemma {:induction false} CopiesOfInput(input: nat, found: seq<Tag>, rate: Rate, i: nat, k: nat)
    requires rate.den > 0
    ensures Copies(CopiesOf(input, found, rate), i, k) == if i == input then Count(k, Serials(found)) else 0
  {
    if found != [] {
      var rest, last := found[..|found| - 1], found[|found| - 1];
      CopiesOfInput(input, rest, rate, i, k);
      CopiesConcat(CopiesOf(input, rest, rate), [Copy(input, Scaled(last, rate))], i, k);
      assert [Copy(input, Scaled(last, rate))][..0] == [];
      assert Serials(found) == Serials(rest) + [last.serial];
    }
  }

  lemma {:induction false} AllCopiesOfInput(found: seq<seq<Tag>>, rate: Rate, i: nat, k: nat)
    requires rate.den > 0
    ensures Copies(AllCopies(found, rate), i, k) == if i < |found| then Count(k, Serials(found[i])) else 0
  {
    if found != [] {
      var rest, last := found[..|found| - 1], found[|found| - 1];
      AllCopiesOfInput(rest, rate, i, k);
      CopiesOfInput(|found| - 1, last, rate, i, k);
      CopiesConcat(AllCopies(rest, rate), CopiesOf(|found| - 1, last, rate), i, k);
    }
  }

  lemma SentOnce(policy: Policy, i: nat, o: nat, noutputs: nat, found: seq<seq<Tag>>, rate: Rate, k: nat)
    requires rate.den > 0 && i < |found| && o < noutputs
    ensures Copies(Sent(policy, o, noutputs, found, rate), i, k) ==
            if Goes(policy, i, o, |found|, noutputs) then Count(k, Serials(found[i])) else 0
  {
    if policy.AllToAll? {
      AllCopiesOfInput(found, rate, i, k);
    } else if policy.OneToOne? && o < |found| == noutputs {
      CopiesOfInput(o, found[o], rate, i, k);
    }
  }

  /** One iteration that called work: the tags found on every input, and the rate at the time. */
  datatype Iteration = Iteration(found: seq<seq<Tag>>, rate: Rate)

  ghost predicate Iterations(its: seq<Iteration>, ninputs: nat) {
    forall t :: 0 <= t < |its| ==> |its[t].found| == ninputs && its[t].rate.den > 0
  }

  function AllSent(policy: Policy, o: nat, noutputs: nat, its: seq<Iteration>): seq<Copy>
    requires forall t :: 0 <= t < |its| ==> its[t].rate.den > 0
  {
    if its == [] then []
    else
      var last := its[|its| - 1];
      AllSent(policy, o, noutputs, its[..|its| - 1]) + Sent(policy, o, noutputs, last.found, last.rate)
  }

  /** Everything found on input i, iteration after iteration. */
  ghost function FoundOn(its: seq<Iteration>, i: nat, ninputs: nat): seq<nat>
    requires i < ninputs && Iterations(its, ninputs)
  {
    if its == [] then [] else FoundOn(its[..|its| - 1], i, ninputs) + Serials(its[|its| - 1].found[i])
  }

  lemma {:induction false} SentIsFound(policy: Policy, i: nat, o: nat, ninputs: nat, noutputs: nat, its: seq<Iteration>,
                                       k: nat)
    requires i < ninputs && o < noutputs && Iterations(its, ninputs)
    ensures Copies(AllSent(policy, o, noutputs, its), i, k) ==
            if Goes(policy, i, o, ninputs, noutputs) then Count(k, FoundOn(its, i, ninputs)) else 0
  {
    if its != [] {
      var rest, last := its[..|its| - 1], its[|its| - 1];
      SentIsFound(policy, i, o, ninputs, noutputs, rest, k);
      SentOnce(policy, i, o, noutputs, last.found, last.rate, k);
      CopiesConcat(AllSent(policy, o, noutputs, rest), Sent(policy, o, noutputs, last.found, last.rate), i, k);
    }
  }

  lemma EventDelivers(s: Store, h: History, e: Event, r: nat)
    requires Enabled(s, e) && PointersOk(s) && |h.delivered| == |s.readers| && r < |h.delivered|
    ensures var d := Recorded(s, e, h).delivered;
            && |d| == |h.delivered|
            && d[r] == if e == Look(r) && LookedUp(s, r).Found?
                       then h.delivered[r] + Serials(LookedUp(s, r).tags) else h.delivered[r]
  {
  }

  /** The iterations are what reader r of the buffer on input i looked up during a run of the buffer. */
  ghost predicate Drives(s: Store, h: History, es: seq<Event>, r: nat, its: seq<Iteration>, i: nat, ninputs: nat)
    requires i < ninputs && Iterations(its, ninputs)
    requires PointersOk(s) && |h.delivered| == |s.readers| && EnabledRun(s, h, es)
    decreases |es|
  {
    if es == [] then its == []
    else
      PointersStay(s, es[0], |h.births|);
      var s', h' := Next(s, es[0], |h.births|), Recorded(s, es[0], h);
      if es[0] == Look(r)
      then
        && its != [] && LookedUp(s, r) == Found(its[0].found[i])
        && Iterations(its[1..], ninputs) && Drives(s', h', es[1..], r, its[1..], i, ninputs)
      else Drives(s', h', es[1..], r, its, i, ninputs)
  }

  lemma {:induction false} FoundFirst(its: seq<Iteration>, i: nat, ninputs: nat)
    requires i < ninputs && its != [] && Iterations(its, ninputs)
    ensures Iterations(its[1..], ninputs)
    ensures FoundOn(its, i, ninputs) == Serials(its[0].found[i]) + FoundOn(its[1..], i, ninputs)
    decreases |its|
  {
    if |its| > 1 {
      var rest, tail := its[..|its| - 1], its[1..];
      assert rest[1..] == tail[..|tail| - 1] && tail[|tail| - 1] == its[|its| - 1] && rest[0] == its[0];
      FoundFirst(rest, i, ninputs);
      Regroup(FoundOn(its, i, ninputs), FoundOn(rest, i, ninputs) , Serials(its[0].found[i]),
        FoundOn(rest[1..], i, ninputs), Serials(its[|its| - 1].found[i]));
    } else {
      assert its[..0] == [] && its[1..] == [];
    }
  }

  lemma Regroup(all: seq<nat>, after: seq<nat>, before: seq<nat>, first: seq<nat>, rest: seq<nat>)
    requires after == before + first && all == after + rest
    ensures all == before + (first + rest)
  {
  }

  lemma {:induction false} FoundIsDelivered(s: Store, h: History, es: seq<Event>, r: nat, its: seq<Iteration>, i: nat,
                                            ninputs: nat)
    requires i < ninputs && Iterations(its, ninputs)
    requires PointersOk(s) && |h.delivered| == |s.readers| && EnabledRun(s, h, es) &&
             Drives(s, h, es, r, its, i, ninputs)
    requires r < |h.delivered|
    ensures r < |After(s, h, es).history.delivered|
    ensures After(s, h, es).history.delivered[r] == h.delivered[r] + FoundOn(its, i, ninputs)
    decreases |es|
  {
    if es != [] {
      var s', h' := Next(s, es[0], |h.births|), Recorded(s, es[0], h);
      PointersStay(s, es[0], |h.births|);
      EventDelivers(s, h, es[0], r);
      assert After(s, h, es) == After(s', h', es[1..]);
      if es[0] == Look(r) {
        FoundIsDelivered(s', h', es[1..], r, its[1..], i, ninputs);
        FoundFirst(its, i, ninputs);
        Regroup(After(s', h', es[1..]).history.delivered[r], h'.delivered[r], h.delivered[r],
          Serials(its[0].found[i]), FoundOn(its[1..], i, ninputs));
      } else {
        FoundIsDelivered(s', h', es[1..], r, its, i, ninputs);
      }
    }
  }

  /**
   Over every run of a block and the buffer on its input i, in which other threads may add and prune
   tags between the block's work and its lookup: a tag whose item the block came past after the tag
   was added, and that was not removed before, is added once to every output it is meant for; no
   other tag is ever added.
   */
  lemma TagsAreCopiedExactlyOnce(rs: seq<Reader>, maxDelay: nat, size: nat, es: seq<Event>, r: nat, k: nat,
        policy: Policy, its: seq<Iteration>, i: nat, o: nat, ninputs: nat, noutputs: nat)
    requires Fresh(rs) && size > 0 && maxDelay + size < MODULUS
    requires r < |rs| && i < ninputs && o < noutputs && Iterations(its, ninputs)
    requires EnabledRun(Empty(rs, maxDelay, size), Nothing(|rs|), es) &&
             SparingRun(Empty(rs, maxDelay, size), Nothing(|rs|), es)
    requires Drives(Empty(rs, maxDelay, size), Nothing(|rs|), es, r, its, i, ninputs)
    ensures var e := After(Empty(rs, maxDelay, size), Nothing(|rs|), es);
            r < |e.store.readers| && k < |e.history.births| ==>
              && BirthsOk(e.store, e.history)
              && Copies(AllSent(policy, o, noutputs, its), i, k) ==
                 if Goes(policy, i, o, ninputs, noutputs) && Passed(e.store, e.history, r, k) &&
                   (r, k) !in e.history.dropped
                 then 1 else 0
  {
    TagsAreDeliveredExactlyOnce(rs, maxDelay, size, es, r, k);
    FoundIsDelivered(Empty(rs, maxDelay, size), Nothing(|rs|), es, r, its, i, ninputs);
    SentIsFound(policy, i, o, ninputs, noutputs, its, k);
    var e := After(Empty(rs, maxDelay, size), Nothing(|rs|), es);
    assert e.history.delivered[r] == [] + FoundOn(its, i, ninputs) == FoundOn(its, i, ninputs);
  }
}
