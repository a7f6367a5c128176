/**
 How many items a stream buffer holds: the flowgraph asks for enough for the writer and for every
 reader, and the buffer rounds the request up until its bytes fill whole pages.
 */
module BufferSizing {
  import opened Rounding

  function Gcd(a: nat, b: nat): (g: nat)
    requires a > 0 || b > 0
    ensures g > 0
    decreases b
  {
    if b == 0 then a else Gcd(b, a % b)
  }

  lemma {:induction false} Bezout(a: nat, b: nat) returns (x: int, y: int)
    requires a > 0 || b > 0
    ensures a * x + b * y == Gcd(a, b)
    decreases b
  {
    if b == 0 {
      x, y := 1, 0;
    } else {
      var u, v := Bezout(b, a % b);
      x, y := v, u - (a / b) * v;
      calc {
        a * x + b * y;
        a * v + b * (u - (a / b) * v);
        { assert b * (u - (a / b) * v) == b * u - b * ((a / b) * v); }
        b * u + (a * v - b * ((a / b) * v));
        { assert b * ((a / b) * v) == (b * (a / b)) * v; }
        b * u + (a * v - (b * (a / b)) * v);
        { assert a * v - (b * (a / b)) * v == (a - b * (a / b)) * v; }
        b * u + (a % b) * v;
      }
    }
  }

  lemma CombineMultiples(b: nat, c: nat, k: nat, g: nat)
    requires g > 0 && b % g == 0 && c % g == 0
    ensures (b * k + c) % g == 0
  {
    var p, q := b / g, c / g;
    assert b == p * g && c == q * g;
    assert (p * g) * k == (p * k) * g;
    assert b * k + c == (p * k + q) * g;
    MultipleDivides(p * k + q, g);
  }

  lemma {:induction false} GcdDivides(a: nat, b: nat)
    requires a > 0 || b > 0
    ensures a % Gcd(a, b) == 0 && b % Gcd(a, b) == 0
    decreases b
  {
    if b == 0 {
      MultipleDivides(1, a);
      MultipleDivides(0, a);
    } else {
      GcdDivides(b, a % b);
      CombineMultiples(b, a % b, a / b, Gcd(a, b));
      assert a == b * (a / b) + a % b;
    }
  }

  function MinimumBufferItems(typeSize: nat, pageSize: nat): nat
    requires typeSize > 0 && pageSize > 0
  {
    pageSize / Gcd(typeSize, pageSize)
  }

  ghost predicate FillsPages(items: nat, typeSize: nat, pageSize: nat)
    requires pageSize > 0
  {
    (typeSize * items) % pageSize == 0
  }

  lemma MinimumPositive(typeSize: nat, pageSize: nat)
    requires typeSize > 0 && pageSize > 0
    ensures MinimumBufferItems(typeSize, pageSize) > 0
    ensures pageSize == MinimumBufferItems(typeSize, pageSize) * Gcd(typeSize, pageSize)
  {
    GcdDivides(typeSize, pageSize);
  }

  lemma MultipleFillsPages(typeSize: nat, pageSize: nat, n: nat)
    requires typeSize > 0 && pageSize > 0 && MinimumBufferItems(typeSize, pageSize) > 0
    requires n % MinimumBufferItems(typeSize, pageSize) == 0
    ensures FillsPages(n, typeSize, pageSize)
  {
    var g, q := Gcd(typeSize, pageSize), MinimumBufferItems(typeSize, pageSize);
    GcdDivides(typeSize, pageSize);
    MinimumPositive(typeSize, pageSize);
    var t, k := typeSize / g, n / q;
    assert typeSize == t * g && n == k * q;
    Regroup(t, g, k, q);
    MultipleDivides(t * k, pageSize);
  }

  lemma Regroup(t: int, g: int, k: int, q: int)
    ensures (t * g) * (k * q) == (t * k) * (q * g)
  {
    assert (t * g) * (k * q) == t * (g * (k * q));
    assert g * (k * q) == k * (q * g);
    assert t * (k * (q * g)) == (t * k) * (q * g);
  }

  lemma PageFillingIsMultiple(typeSize: nat, pageSize: nat, n: nat)
    requires typeSize > 0 && pageSize > 0 && MinimumBufferItems(typeSize, pageSize) > 0
    requires FillsPages(n, typeSize, pageSize)
    ensures n % MinimumBufferItems(typeSize, pageSize) == 0
  {
    var g, q := Gcd(typeSize, pageSize), MinimumBufferItems(typeSize, pageSize);
    MinimumPositive(typeSize, pageSize);
    var c := (typeSize * n) / pageSize;
    var x, y := Bezout(typeSize, pageSize);
    CancelFactor(typeSize, pageSize, n, c, x, y, g, q);
    MultipleDivides(c * x + y * n, q);
  }

  /** The sizes that fill whole pages are exactly the multiples of the minimum, which is positive. */
  lemma PageFillingSizes(typeSize: nat, pageSize: nat, n: nat)
    requires typeSize > 0 && pageSize > 0
    ensures MinimumBufferItems(typeSize, pageSize) > 0
    ensures FillsPages(n, typeSize, pageSize) <==> n % MinimumBufferItems(typeSize, pageSize) == 0
  {
    MinimumPositive(typeSize, pageSize);
    if n % MinimumBufferItems(typeSize, pageSize) == 0 {
      MultipleFillsPages(typeSize, pageSize, n);
    }
    if FillsPages(n, typeSize, pageSize) {
      PageFillingIsMultiple(typeSize, pageSize, n);
    }
  }

  lemma CancelFactor(t: nat, p: nat, n: nat, c: nat, x: int, y: int, g: nat, q: nat)
    requires g > 0 && t * n == c * p && t * x + p * y == g && p == q * g
    ensures n == (c * x + y * n) * q
  {
    var z := c * x + y * n;
    calc {
      n * g;
      n * (t * x + p * y);
      { assert n * (t * x) == (t * n) * x; assert n * (p * y) == p * (y * n); }
      (t * n) * x + p * (y * n);
      { assert (c * p) * x == p * (c * x); }
      p * (c * x) + p * (y * n);
      p * z;
      { assert (q * g) * z == (z * q) * g; }
      (z * q) * g;
    }
    MultipleDivides(n, g);
    MultipleDivides(z * q, g);
  }

  /** `buffer::allocate_buffer`: the least page-filling size that is at least the request. */
  method AllocateBuffer(request: nat, sizeofItem: nat, granularity: nat) returns (bufsize: nat)
    requires request > 0 && sizeofItem > 0 && granularity > 0
    ensures bufsize >= request && FillsPages(bufsize, sizeofItem, granularity)
    ensures forall n: nat :: n >= request && FillsPages(n, sizeofItem, granularity) ==> bufsize <= n
  {
    var minItems := MinimumBufferItems(sizeofItem, granularity);
    PageFillingSizes(sizeofItem, granularity, 0);
    bufsize := request;
    if bufsize % minItems != 0 {
      bufsize := (bufsize / minItems + 1) * minItems;
      MultipleDivides(request / minItems + 1, minItems);
    }
    PageFillingSizes(sizeofItem, granularity, bufsize);
    forall n: nat | n >= request && FillsPages(n, sizeofItem, granularity) ensures bufsize <= n {
      PageFillingSizes(sizeofItem, granularity, n);
      if n < bufsize {
        MultiplesStep(n, bufsize, minItems);
      }
    }
  }

  // ------------------------------------------------------------------------------------
  // The request of the flowgraph
  // ------------------------------------------------------------------------------------

  /** What the sizing reads from a downstream block; decimation is `rateDen / rateNum`. */
  datatype Reader = Reader(rateNum: nat, rateDen: nat, outputMultiple: nat, history: nat)

  /** Twice (decimation * multiple + history), truncated to whole items. */
  function ReaderNeed(r: Reader): nat
    requires r.rateNum > 0
  {
    2 * (r.rateDen * r.outputMultiple + r.history * r.rateNum) / r.rateNum
  }

  const FIXED_BUFFER_SIZE := 32768

  function Larger(a: int, b: int): int { if a < b then b else a }

  function BaseFor(itemSize: nat, outputMultiple: nat, maxBuffer: int, minBuffer: int): nat
    requires itemSize > 0 && outputMultiple > 0
  {
    var usual := Larger(2 * FIXED_BUFFER_SIZE / itemSize, 2 * outputMultiple);
    if maxBuffer > 0 then RoundDown(if usual < maxBuffer then usual else maxBuffer, outputMultiple)
    else if minBuffer > 0 then RoundDown(Larger(usual, minBuffer), outputMultiple)
    else usual
  }

  /** The request before the readers are looked at; limits that are not positive are off. */
  method BaseItems(itemSize: nat, outputMultiple: nat, maxBuffer: int, minBuffer: int) returns (n: nat)
    requires itemSize > 0 && outputMultiple > 0
    ensures n == BaseFor(itemSize, outputMultiple, maxBuffer, minBuffer)
  {
    n := FIXED_BUFFER_SIZE * 2 / itemSize;
    if n < 2 * outputMultiple {
      n := 2 * outputMultiple;
    }
    if maxBuffer > 0 {
      n := if n < maxBuffer then n else maxBuffer;
      RemainderIsRest(n, outputMultiple);
      n := n - n % outputMultiple;
    } else if minBuffer > 0 {
      n := if n < minBuffer then minBuffer else n;
      RemainderIsRest(n, outputMultiple);
      n := n - n % outputMultiple;
    }
  }

  lemma RemainderIsRest(n: nat, m: nat)
    requires m > 0
    ensures n - n % m == RoundDown(n, m)
  {
  }

  datatype Request = Items(n: nat) | Unsatisfiable

  /** `flat_flowgraph::allocate_buffer` up to the allocation. */
  method RequestItems(itemSize: nat, outputMultiple: nat, maxBuffer: int, minBuffer: int, readers: seq<Reader>)
    returns (r: Request)
    requires itemSize > 0 && outputMultiple > 0
    requires forall d :: d in readers ==> d.rateNum > 0
    ensures r.Unsatisfiable? <==> 0 < maxBuffer < outputMultiple
    ensures r.Items? ==> r.n >= 1 && forall d :: d in readers ==> r.n >= ReaderNeed(d)
    ensures r.Items? && maxBuffer <= 0 ==> r.n >= 2 * outputMultiple
    ensures r.Items? ==>
              && r.n >= BaseFor(itemSize, outputMultiple, maxBuffer, minBuffer)
              && (|| r.n == BaseFor(itemSize, outputMultiple, maxBuffer, minBuffer)
                  || exists d :: d in readers && r.n == ReaderNeed(d))
  {
    var n: nat := BaseItems(itemSize, outputMultiple, maxBuffer, minBuffer);
    BaseIsEnough(itemSize, outputMultiple, maxBuffer, minBuffer);
    if n < 1 {
      return Unsatisfiable;
    }
    ghost var base := n;
    for i := 0 to |readers|
      invariant n >= base && (forall j :: 0 <= j < i ==> n >= ReaderNeed(readers[j]))
      invariant n == base || exists d :: d in readers && n == ReaderNeed(d)
    {
      var need := ReaderNeed(readers[i]);
      n := if n < need then need else n;
    }
    r := Items(n);
  }

  /** Without a maximum the request holds two output multiples; a maximum can make it empty. */
  lemma BaseIsEnough(itemSize: nat, outputMultiple: nat, maxBuffer: int, minBuffer: int)
    requires itemSize > 0 && outputMultiple > 0
    ensures var n := BaseFor(itemSize, outputMultiple, maxBuffer, minBuffer);
      (n < 1 <==> 0 < maxBuffer < outputMultiple) && (maxBuffer <= 0 ==> n >= 2 * outputMultiple)
  {
    var n := BaseFor(itemSize, outputMultiple, maxBuffer, minBuffer);
    MultipleDivides(1, outputMultiple);
    MultipleDivides(2, outputMultiple);
    var usual := Larger(2 * FIXED_BUFFER_SIZE / itemSize, 2 * outputMultiple);
    if maxBuffer >= outputMultiple {
      RoundDownGreatest(if usual < maxBuffer then usual else maxBuffer, outputMultiple, outputMultiple);
    } else if maxBuffer > 0 {
      MultipleDivides(0, outputMultiple);
      CloseMultiplesEqual(n, 0, outputMultiple);
    } else if minBuffer > 0 {
      RoundDownGreatest(Larger(usual, minBuffer), outputMultiple, 2 * outputMultiple);
    }
  }

  /**
   The count before the readers. The usual size is the items that fit 64 KiB, or two multiples if that is
   more. With a maximum the count is the most whole multiples within both; with a minimum alone, the most
   within the larger of both; otherwise it is the usual size.
   */
  lemma BaseIsWithin(itemSize: nat, outputMultiple: nat, maxBuffer: int, minBuffer: int) returns (usual: nat)
    requires itemSize > 0 && outputMultiple > 0
    ensures usual >= 2 * outputMultiple && (usual + 1) * itemSize > 65536
    ensures usual * itemSize <= 65536 || usual == 2 * outputMultiple
    ensures var n := BaseFor(itemSize, outputMultiple, maxBuffer, minBuffer);
      && (maxBuffer > 0 || minBuffer > 0 ==> n % outputMultiple == 0)
      && (maxBuffer > 0 ==>
            n <= maxBuffer && n <= usual && (n + outputMultiple > maxBuffer || n + outputMultiple > usual))
      && (maxBuffer <= 0 && minBuffer > 0 ==>
            (n <= minBuffer || n <= usual) && n + outputMultiple > minBuffer && n + outputMultiple > usual)
      && (maxBuffer <= 0 && minBuffer <= 0 ==> n == usual)
  {
    UsualSize(itemSize);
    usual := Larger(65536 / itemSize, 2 * outputMultiple);
    Scaled(65536 / itemSize + 1, usual + 1, itemSize);
  }

  lemma UsualSize(itemSize: nat)
    requires itemSize > 0
    ensures (65536 / itemSize) * itemSize <= 65536 < (65536 / itemSize + 1) * itemSize
  {
    assert 65536 == (65536 / itemSize) * itemSize + 65536 % itemSize;
    Distribute(65536 / itemSize, 1, itemSize);
  }

  lemma Scaled(a: int, b: int, m: nat)
    ensures a <= b ==> a * m <= b * m
  {
    Distribute(b, a, m);
  }

  /** A reader's need is twice what it takes for one output multiple, history and all, in whole items. */
  lemma NeedIsWhole(r: Reader)
    requires r.rateNum > 0
    ensures var twice := 2 * (r.rateDen * r.outputMultiple + r.history * r.rateNum);
      ReaderNeed(r) * r.rateNum <= twice < (ReaderNeed(r) + 1) * r.rateNum
  {
    var twice := 2 * (r.rateDen * r.outputMultiple + r.history * r.rateNum);
    assert twice == (twice / r.rateNum) * r.rateNum + twice % r.rateNum;
    Distribute(twice / r.rateNum, 1, r.rateNum);
  }

  /** Room for two of the writer's output multiples and for what every reader needs. */
  ghost predicate EnoughFor(bufsize: nat, outputMultiple: nat, readers: seq<Reader>)
    requires forall d :: d in readers ==> d.rateNum > 0
  {
    bufsize >= 2 * outputMultiple && forall d :: d in readers ==> bufsize >= ReaderNeed(d)
  }

  /** The buffer an output gets, if the request can be met. */
  method SizeOutput(itemSize: nat, outputMultiple: nat, maxBuffer: int, minBuffer: int, readers: seq<Reader>,
                    granularity: nat)
    returns (r: Request)
    requires itemSize > 0 && outputMultiple > 0 && granularity > 0
    requires forall d :: d in readers ==> d.rateNum > 0
    ensures r.Unsatisfiable? <==> 0 < maxBuffer < outputMultiple
    ensures maxBuffer <= 0 ==> r.Items? && EnoughFor(r.n, outputMultiple, readers)
    ensures r.Items? ==> FillsPages(r.n, itemSize, granularity)
  {
    r := RequestItems(itemSize, outputMultiple, maxBuffer, minBuffer, readers);
    if r.Items? {
      var n := AllocateBuffer(r.n, itemSize, granularity);
      r := Items(n);
    }
  }
}
