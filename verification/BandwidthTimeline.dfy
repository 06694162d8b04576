/** The throughput timeline: the bytes of an interval are spread over the time bins it
    overlaps, and the bins double in width before there are too many.
 */
module BandwidthTimeline {
  import opened Model

  const NANOS: int := 1_000_000_000
  const MAX_BINS: int := 360
  const FIRST_WIDTH: int := 5

  // ------------------------------------------------------------- rounding

  // Go divides toward zero.
  function Quotient(a: int, b: int): int
    requires b > 0
  {
    if a >= 0 then a / b else -((-a) / b)
  }

  // The start of the bin of a second, as the program computes it.
  function Bucket(seconds: int, width: int): int
    requires width > 0
  {
    var q := Quotient(seconds, width);
    (if seconds < 0 && q * width != seconds then q - 1 else q) * width
  }

  lemma DivisionIs(a: int, b: int)
    requires b > 0
    ensures a / b * b <= a < a / b * b + b
  {
  }

  lemma {:induction false} Products(a: int, b: int, w: int)
    requires w > 0
    ensures a < b ==> a * w + w <= b * w
    ensures a <= b ==> a * w <= b * w
    decreases b - a
  {
    if a < b {
      Products(a, b - 1, w);
      assert b * w == (b - 1) * w + w;
    }
  }

  lemma QuotientIsUnique(a: int, b: int, q: int)
    requires b > 0 && q * b <= a < q * b + b
    ensures a / b == q
  {
    DivisionIs(a, b);
    var r := a / b;
    Products(r, q, b);
    Products(q, r, b);
  }

  /** The truncated division with its correction is the floor: the bin contains the second,
      for times before 1970 too. */
  lemma BucketIsFloor(seconds: int, width: int)
    requires width > 0
    ensures Bucket(seconds, width) == seconds / width * width
    ensures Bucket(seconds, width) <= seconds < Bucket(seconds, width) + width
  {
    DivisionIs(seconds, width);
    if seconds < 0 {
      DivisionIs(-seconds, width);
      var t := (-seconds) / width;
      if t * width == -seconds {
        assert -t * width == seconds;
        QuotientIsUnique(seconds, width, -t);
      } else {
        assert (-t - 1) * width == -(t * width) - width;
        QuotientIsUnique(seconds, width, -t - 1);
      }
    }
  }

  lemma QuotientOrder(a: int, b: int, width: int)
    requires width > 0 && a <= b
    ensures a / width <= b / width
  {
    DivisionIs(a, width);
    DivisionIs(b, width);
    Products(b / width, a / width, width);
  }

  lemma BucketOrder(a: int, b: int, width: int)
    requires width > 0 && a <= b
    ensures Bucket(a, width) <= Bucket(b, width) && (Bucket(b, width) - Bucket(a, width)) / width == b / width - a / width
  {
    hide Bucket;
    BucketIsFloor(a, width);
    BucketIsFloor(b, width);
    QuotientOrder(a, b, width);
    var p, q := a / width, b / width;
    Products(p, q, width);
    assert (q - p) * width == q * width - p * width;
    MultipleOf(q - p, width);
  }

  lemma MultipleOf(n: int, width: int)
    requires width > 0
    ensures (n * width) / width == n
  {
    QuotientIsUnique(n * width, width, n);
  }

  // Rounding twice, to the same or to the doubled width.
  lemma BucketAgain(s: int, width: int)
    requires width > 0
    ensures Bucket(Bucket(s, width), width) == Bucket(s, width)
    ensures Bucket(Bucket(s, width), 2 * width) == Bucket(s, 2 * width)
  {
    hide Bucket;
    var b, p, q := Bucket(s, width), s / width, s / (2 * width);
    BucketIsFloor(s, width);
    BucketIsFloor(b, width);
    MultipleOf(p, width);
    BucketIsFloor(s, 2 * width);
    BucketIsFloor(b, 2 * width);
    HalvesFit(p * width, s, p, q, width);
  }

  lemma HalvesFit(b: int, s: int, p: int, q: int, width: int)
    requires width > 0 && b == p * width && b <= s < b + width && q == s / (2 * width)
    ensures b / (2 * width) == q
  {
    DivisionIs(s, 2 * width);
    assert q * (2 * width) == (2 * q) * width;
    Products(p, 2 * q, width);
    Products(2 * q, p, width);
    QuotientIsUnique(b, 2 * width, q);
  }

  // ------------------------------------------------------------------ bins

  // Bins are named by the second they start at, before or after 1970.
  datatype Slot = Slot(start: int)

  datatype Bin = Bin(received: real, sent: real, peer: real)

  datatype Measure = Received | Sent | PeerTime

  function Of(b: Bin, m: Measure): real {
    match m
    case Received => b.received
    case Sent => b.sent
    case PeerTime => b.peer
  }

  const EMPTY: Bin := Bin(0.0, 0.0, 0.0)

  function At(bins: map<Slot, Bin>, k: Slot): Bin { if k in bins then bins[k] else EMPTY }

  function Plus(a: Bin, b: Bin): Bin { Bin(a.received + b.received, a.sent + b.sent, a.peer + b.peer) }

  ghost function Sum(keys: set<Slot>, bins: map<Slot, Bin>, m: Measure): real {
    if keys == {} then 0.0 else var k :| k in keys; Of(At(bins, k), m) + Sum(keys - {k}, bins, m)
  }

  // The area under the curve.
  ghost function Area(bins: map<Slot, Bin>, m: Measure): real { Sum(bins.Keys, bins, m) }

  lemma {:induction false} SumWithout(keys: set<Slot>, k: Slot, bins: map<Slot, Bin>, m: Measure)
    requires k in keys
    ensures Sum(keys, bins, m) == Of(At(bins, k), m) + Sum(keys - {k}, bins, m)
  {
    var x :| x in keys && Sum(keys, bins, m) == Of(At(bins, x), m) + Sum(keys - {x}, bins, m);
    if x != k {
      SumWithout(keys - {x}, k, bins, m);
      SumWithout(keys - {k}, x, bins, m);
      assert keys - {x} - {k} == keys - {k} - {x};
    }
  }

  lemma {:induction false} SumAgrees(keys: set<Slot>, a: map<Slot, Bin>, b: map<Slot, Bin>, m: Measure)
    requires forall k :: k in keys ==> At(a, k) == At(b, k)
    ensures Sum(keys, a, m) == Sum(keys, b, m)
  {
    if keys != {} {
      var k :| k in keys;
      SumWithout(keys, k, a, m);
      SumWithout(keys, k, b, m);
      SumAgrees(keys - {k}, a, b, m);
    }
  }

  // Adding to one bin adds to the area.
  lemma AreaGrows(bins: map<Slot, Bin>, k: Slot, more: Bin, m: Measure)
    ensures Area(bins[k := Plus(At(bins, k), more)], m) == Area(bins, m) + Of(more, m)
  {
    var after := bins[k := Plus(At(bins, k), more)];
    SumWithout(after.Keys, k, after, m);
    assert after.Keys - {k} == bins.Keys - {k};
    SumAgrees(bins.Keys - {k}, bins, after, m);
    if k in bins { SumWithout(bins.Keys, k, bins, m); } else { assert bins.Keys - {k} == bins.Keys; }
  }

  // Bins start at multiples of the width, between those of the first and the last second.
  ghost predicate Shaped(bins: map<Slot, Bin>, width: int, first: int, last: int)
    requires width > 0
  {
    forall k :: k in bins ==> Bucket(k.start, width) == k.start && Bucket(first, width) <= k.start <= Bucket(last, width)
  }

  // A bin exists only where some interval spent time: empty bins stay unknown.
  ghost predicate Lit(bins: map<Slot, Bin>) { forall k :: k in bins ==> bins[k].peer > 0.0 }

  lemma LitMore(bins: map<Slot, Bin>, k: Slot, more: Bin)
    requires Lit(bins) && more.peer > 0.0
    ensures Lit(bins[k := Plus(At(bins, k), more)])
  {
  }

  // Lit bins of the same amounts are the same bins.
  lemma SameBins(a: map<Slot, Bin>, b: map<Slot, Bin>, width: int)
    requires width > 0 && Lit(a) && Lit(b)
    requires forall k :: k in a || k in b ==> Aligned(k, width)
    requires forall k :: Aligned(k, width) ==> At(a, k) == At(b, k)
    ensures a == b
  {
    hide Aligned;
    forall k ensures k in a <==> k in b {
      if k in a || k in b { assert At(a, k) == At(b, k); }
    }
    forall k | k in a ensures a[k] == b[k] { assert At(a, k) == At(b, k); }
  }

  ghost function Multiples(from: int, count: nat, width: int): set<Slot> {
    if count == 0 then {} else Multiples(from, count - 1, width) + {Slot((from + count - 1) * width)}
  }

  lemma {:induction false} MultiplesFew(from: int, count: nat, width: int)
    ensures |Multiples(from, count, width)| <= count
  {
    if count > 0 { MultiplesFew(from, count - 1, width); }
  }

  lemma {:induction false} MultiplesHave(from: int, count: nat, width: int, i: int)
    requires from <= i < from + count
    ensures Slot(i * width) in Multiples(from, count, width)
  {
    if i < from + count - 1 { MultiplesHave(from, count - 1, width, i); }
  }

  /** The number of bins follows from the span the program checks. */
  lemma BinsAreFew(bins: map<Slot, Bin>, width: int, first: int, last: int)
    requires width > 0 && first <= last && Shaped(bins, width, first, last)
    requires (Bucket(last, width) - Bucket(first, width)) / width < MAX_BINS
    ensures |bins| <= MAX_BINS
  {
    BucketOrder(first, last, width);
    BucketIsFloor(first, width);
    BucketIsFloor(last, width);
    var p, q := first / width, last / width;
    QuotientOrder(first, last, width);
    var count: nat := q - p + 1;
    MultiplesFew(p, count, width);
    forall k | k in bins ensures k in Multiples(p, count, width) {
      BinIndex(k.start, width, first, last);
      MultiplesHave(p, count, width, k.start / width);
    }
    SubsetSize(bins.Keys, Multiples(p, count, width));
  }

  lemma BinIndex(k: int, width: int, first: int, last: int)
    requires width > 0 && Bucket(k, width) == k && Bucket(first, width) <= k <= Bucket(last, width)
    ensures k / width * width == k && first / width <= k / width <= last / width
  {
    BucketIsFloor(k, width);
    BucketIsFloor(first, width);
    BucketIsFloor(last, width);
    Products(k / width, first / width, width);
    Products(last / width, k / width, width);
  }

  // -------------------------------------------------------------- timeline

  datatype Interval = Interval(at: int, duration: int, received: nat, sent: nat)

  function Amount(i: Interval, m: Measure): real {
    match m
    case Received => i.received as real
    case Sent => i.sent as real
    case PeerTime => i.duration as real
  }

  // What an overlap of so many nanoseconds gets of an interval.
  function Part(i: Interval, overlap: int): Bin
    requires i.duration > 0
  {
    var fraction := overlap as real / i.duration as real;
    Bin(i.received as real * fraction, i.sent as real * fraction, overlap as real)
  }

  lemma PartsAdd(i: Interval, a: int, b: int, m: Measure)
    requires i.duration > 0
    ensures Of(Part(i, a), m) + Of(Part(i, b), m) == Of(Part(i, a + b), m)
    ensures Of(Part(i, 0), m) == 0.0 && Of(Part(i, i.duration), m) == Amount(i, m)
  {
    var d := i.duration as real;
    assert a as real / d + b as real / d == (a + b) as real / d;
    Distribute(i.received as real, a as real / d, b as real / d);
    Distribute(i.sent as real, a as real / d, b as real / d);
    assert 0 as real / d == 0.0 && d / d == 1.0;
  }

  lemma Distribute(x: real, a: real, b: real)
    ensures x * a + x * b == x * (a + b)
  {
  }

  // ------------------------------------------------- what the bins mean

  function FirstSecond(i: Interval): int { (i.at - i.duration) / NANOS }

  function LastSecond(i: Interval): int { (i.at - 1) / NANOS }

  predicate Aligned(k: Slot, width: int)
    requires width > 0
  {
    Bucket(k.start, width) == k.start
  }

  // The nanoseconds an interval has in common with a bin.
  function Overlap(i: Interval, k: int, width: int): int {
    MaxInt(0, MinInt(i.at, (k + width) * NANOS) - MaxInt(i.at - i.duration, k * NANOS))
  }

  function Share(i: Interval, k: int, width: int): Bin { if i.duration > 0 then Part(i, Overlap(i, k, width)) else EMPTY }

  // The definition the timeline must meet: the sum of all intervals' shares of one bin.
  function Shares(history: seq<Interval>, k: int, width: int): Bin {
    if history == [] then EMPTY
    else Plus(Shares(history[..|history| - 1], k, width), Share(history[|history| - 1], k, width))
  }

  ghost predicate Pictures(bins: map<Slot, Bin>, history: seq<Interval>, width: int)
    requires width > 0
  {
    forall k :: Aligned(k, width) ==> At(bins, k) == Shares(history, k.start, width)
  }

  lemma PartsJoin(i: Interval, a: int, b: int)
    requires i.duration > 0
    ensures Plus(Part(i, a), Part(i, b)) == Part(i, a + b) && Part(i, 0) == EMPTY
  {
    PartsAdd(i, a, b, Received);
    PartsAdd(i, a, b, Sent);
    PartsAdd(i, a, b, PeerTime);
  }

  lemma ShareSplits(i: Interval, k: int, width: int)
    requires width > 0
    ensures Share(i, k, 2 * width) == Plus(Share(i, k, width), Share(i, k + width, width))
  {
    hide Part;
    if i.duration > 0 {
      PartsJoin(i, Overlap(i, k, width), Overlap(i, k + width, width));
      assert Overlap(i, k, 2 * width) == Overlap(i, k, width) + Overlap(i, k + width, width);
    }
  }

  // Doubling the width commutes with filling the bins.
  lemma {:induction false} SharesSplit(history: seq<Interval>, k: int, width: int)
    requires width > 0
    ensures Shares(history, k, 2 * width) == Plus(Shares(history, k, width), Shares(history, k + width, width))
  {
    hide Share;
    if history != [] {
      SharesSplit(history[..|history| - 1], k, width);
      ShareSplits(history[|history| - 1], k, width);
    }
  }

  lemma SharesMore(history: seq<Interval>, i: Interval, k: int, width: int)
    ensures Shares(history + [i], k, width) == Plus(Shares(history, k, width), Share(i, k, width))
  {
    assert (history + [i])[..|history|] == history;
  }

  // Bins of one width do not overlap, and every bin of the double width is two of them.
  lemma Apart(a: int, b: int, width: int)
    requires width > 0 && Bucket(a, width) == a && Bucket(b, width) == b && a < b
    ensures a + width <= b
  {
    BucketIsFloor(a, width);
    BucketIsFloor(b, width);
    Products(b / width, a / width, width);
    Products(a / width, b / width, width);
  }

  lemma Halves(k: int, width: int)
    requires width > 0 && Bucket(k, 2 * width) == k
    ensures Bucket(k, width) == k && Bucket(k + width, width) == k + width
  {
    BucketIsFloor(k, 2 * width);
    var q := k / (2 * width);
    assert q * (2 * width) == (2 * q) * width;
    QuotientIsUnique(k, width, 2 * q);
    BucketIsFloor(k, width);
    NextBucket(k, width);
  }

  lemma HalfOf(at: int, k: int, width: int)
    requires width > 0 && Bucket(at, width) == at && Bucket(k, 2 * width) == k
    ensures Bucket(at, 2 * width) == k <==> at == k || at == k + width
  {
    BucketIsFloor(at, 2 * width);
    Halves(k, width);
    var b := Bucket(at, 2 * width);
    if b == k {
      if k < at { Apart(k, at, width); }
      if k + width < at { Apart(k + width, at, width); }
    } else if at == k || at == k + width {
      BucketAgain(at, 2 * width);
      if b < k { Apart(b, k, 2 * width); } else { Apart(k, b, 2 * width); }
    }
  }

  // A merged bin holds its two halves, as far as they have been visited.
  ghost predicate Merged(bins: map<Slot, Bin>, merged: map<Slot, Bin>, todo: set<Slot>, width: int)
    requires width > 0
  {
    forall k :: Aligned(k, 2 * width) ==> MergedInto(bins, merged, todo, width, k)
  }

  predicate MergedInto(bins: map<Slot, Bin>, merged: map<Slot, Bin>, todo: set<Slot>, width: int, k: Slot) {
    At(merged, k) == Plus(Visited(bins, todo, k), Visited(bins, todo, Slot(k.start + width)))
  }

  function Visited(bins: map<Slot, Bin>, todo: set<Slot>, k: Slot): Bin { if k in todo then EMPTY else At(bins, k) }

  lemma MergedStep(bins: map<Slot, Bin>, merged: map<Slot, Bin>, todo: set<Slot>, width: int, at: Slot)
    requires width > 0 && Merged(bins, merged, todo, width) && at in todo && at in bins && Aligned(at, width)
    ensures var key := Slot(Bucket(at.start, 2 * width));
      Merged(bins, merged[key := Plus(At(merged, key), bins[at])], todo - {at}, width)
  {
    hide Bucket, MergedInto;
    var key := Slot(Bucket(at.start, 2 * width));
    var after := merged[key := Plus(At(merged, key), bins[at])];
    forall k | Aligned(k, 2 * width) ensures MergedInto(bins, after, todo - {at}, width, k) {
      HalfOf(at.start, k.start, width);
      assert MergedInto(bins, merged, todo, width, k);
      OneMerged(bins, merged, todo, width, at, key, k);
    }
  }

  lemma OneMerged(bins: map<Slot, Bin>, merged: map<Slot, Bin>, todo: set<Slot>, width: int, at: Slot, key: Slot, k: Slot)
    requires width > 0 && MergedInto(bins, merged, todo, width, k) && at in todo && at in bins
    requires key == k <==> at == k || at == Slot(k.start + width)
    ensures MergedInto(bins, merged[key := Plus(At(merged, key), bins[at])], todo - {at}, width, k)
  {
    var other := Slot(k.start + width);
    VisitedRest(bins, todo, at, k);
    VisitedRest(bins, todo, at, other);
    assert k != other && Visited(bins, todo, at) == EMPTY;
    PlusLaws(Visited(bins, todo, k), Visited(bins, todo, other), bins[at]);
    hide Visited, Plus;
  }

  lemma PlusLaws(a: Bin, b: Bin, c: Bin)
    ensures a == EMPTY ==> Plus(Plus(a, b), c) == Plus(c, b)
    ensures b == EMPTY ==> Plus(Plus(a, b), c) == Plus(a, c)
  {
  }

  lemma VisitedRest(bins: map<Slot, Bin>, todo: set<Slot>, at: Slot, k: Slot)
    ensures Visited(bins, todo - {at}, k) == if k == at then At(bins, at) else Visited(bins, todo, k)
  {
  }

  lemma PairPictured(bins: map<Slot, Bin>, merged: map<Slot, Bin>, width: int, history: seq<Interval>, k: Slot)
    requires width > 0 && Merged(bins, merged, {}, width) && Pictures(bins, history, width) && Aligned(k, 2 * width)
    ensures At(merged, k) == Shares(history, k.start, 2 * width)
  {
    hide Bucket, Shares, Plus;
    Halves(k.start, width);
    SharesSplit(history, k.start, width);
    var other := Slot(k.start + width);
    assert Aligned(k, width) && Aligned(other, width);
    assert MergedInto(bins, merged, {}, width, k);
  }

  lemma MergedPictures(bins: map<Slot, Bin>, merged: map<Slot, Bin>, width: int, history: seq<Interval>)
    requires width > 0 && Merged(bins, merged, {}, width) && Pictures(bins, history, width)
    ensures Pictures(merged, history, 2 * width)
  {
    hide Bucket, Shares;
    forall k | Aligned(k, 2 * width) ensures At(merged, k) == Shares(history, k.start, 2 * width) {
      PairPictured(bins, merged, width, history, k);
    }
  }

  lemma NoneMerged(bins: map<Slot, Bin>, width: int)
    requires width > 0
    ensures Merged(bins, map[], bins.Keys, width)
  {
  }

  // Pairs of bins become one of double width.
  method Merge(bins: map<Slot, Bin>, width: int, first: int, last: int) returns (merged: map<Slot, Bin>)
    requires width > 0 && Shaped(bins, width, first, last) && Lit(bins)
    ensures Shaped(merged, 2 * width, first, last) && Lit(merged) && (bins != map[] ==> merged != map[])
    ensures forall m :: Area(merged, m) == Area(bins, m)
    ensures Merged(bins, merged, {}, width)
  {
    hide Bucket, Area, Sum, Of, Merged;
    NoneMerged(bins, width);
    hide Plus;
    var double := 2 * width;
    merged := map[];
    forall m ensures Area(merged, m) + Sum(bins.Keys, bins, m) == Area(bins, m) { AreaIs(bins, m); }
    var todo := bins.Keys;
    while todo != {}
      invariant todo <= bins.Keys && Shaped(merged, double, first, last) && Lit(merged) && (merged == map[] ==> todo == bins.Keys)
      invariant forall m :: Area(merged, m) + Sum(todo, bins, m) == Area(bins, m)
      invariant Merged(bins, merged, todo, width)
      decreases todo
    {
      var at :| at in todo;
      var key := Slot(Bucket(at.start, double));
      MergedIsShaped(at.start, width, first, last);
      MergedStep(bins, merged, todo, width, at);
      LitMore(merged, key, bins[at]);
      var after := merged[key := Plus(At(merged, key), bins[at])];
      forall m ensures Area(after, m) + Sum(todo - {at}, bins, m) == Area(bins, m) {
        AreaGrows(merged, key, bins[at], m);
        SumWithout(todo, at, bins, m);
      }
      assert key in after;
      merged, todo := after, todo - {at};
    }
    forall m ensures Sum(todo, bins, m) == 0.0 { SumNothing(bins, m); }
  }

  // One interval spread over the bins that start before `at`, and over all bins.
  ghost predicate SpreadBefore(was: map<Slot, Bin>, now: map<Slot, Bin>, i: Interval, width: int, at: int)
    requires width > 0
  {
    forall k :: Aligned(k, width) ==> SpreadInto(was, now, i, width, at, k)
  }

  predicate SpreadInto(was: map<Slot, Bin>, now: map<Slot, Bin>, i: Interval, width: int, at: int, k: Slot) {
    At(now, k) == if k.start < at then Plus(At(was, k), Share(i, k.start, width)) else At(was, k)
  }

  lemma PlusNothing(b: Bin)
    ensures Plus(b, EMPTY) == b
  {
  }

  lemma SpreadNothing(was: map<Slot, Bin>, i: Interval, width: int, at: int)
    requires width > 0 && i.duration > 0 && Bucket(at, width) == at && at == Bucket(FirstSecond(i), width)
    ensures SpreadBefore(was, was, i, width, at)
  {
    hide Plus, Part;
    BucketIsFloor(FirstSecond(i), width);
    DivisionIs(i.at - i.duration, NANOS);
    PartsJoin(i, 0, 0);
    forall k | Aligned(k, width) ensures SpreadInto(was, was, i, width, at, k) {
      PlusNothing(At(was, k));
      if k.start < at {
        Apart(k.start, at, width);
        assert Overlap(i, k.start, width) == 0;
      }
    }
  }

  lemma SpreadStep(was: map<Slot, Bin>, now: map<Slot, Bin>, i: Interval, width: int, at: int)
    requires width > 0 && i.duration > 0 && Bucket(at, width) == at && SpreadBefore(was, now, i, width, at)
    ensures SpreadBefore(was, now[Slot(at) := Plus(At(now, Slot(at)), Part(i, Overlap(i, at, width)))], i, width, at + width)
  {
    hide Plus, Part, Bucket, Overlap;
    var after := now[Slot(at) := Plus(At(now, Slot(at)), Part(i, Overlap(i, at, width)))];
    forall k | Aligned(k, width) ensures SpreadInto(was, after, i, width, at + width, k) {
      assert SpreadInto(was, now, i, width, at, k);
      if at < k.start { Apart(at, k.start, width); }
    }
  }

  lemma SpreadAll(was: map<Slot, Bin>, now: map<Slot, Bin>, i: Interval, width: int, at: int, history: seq<Interval>)
    requires width > 0 && i.duration > 0 && LastSecond(i) < at && SpreadBefore(was, now, i, width, at)
    requires Pictures(was, history, width)
    ensures Pictures(now, history + [i], width)
  {
    hide Plus, Part, Bucket;
    DivisionIs(i.at - 1, NANOS);
    PartsJoin(i, 0, 0);
    forall k | Aligned(k, width) ensures At(now, k) == Shares(history + [i], k.start, width) {
      assert SpreadInto(was, now, i, width, at, k);
      SharesMore(history, i, k.start, width);
      PlusNothing(At(was, k));
      if at <= k.start { assert Overlap(i, k.start, width) == 0; }
    }
  }

  lemma NothingMore(bins: map<Slot, Bin>, i: Interval, width: int, history: seq<Interval>)
    requires width > 0 && i.duration <= 0 && Pictures(bins, history, width)
    ensures Pictures(bins, history + [i], width)
  {
    hide Plus, Bucket;
    forall k | Aligned(k, width) ensures At(bins, k) == Shares(history + [i], k.start, width) {
      SharesMore(history, i, k.start, width);
      PlusNothing(At(bins, k));
    }
  }

  // ------------------------------------------------------------- the width

  // The least doubled width whose bins are few enough.
  function Fit(first: int, last: int, width: int): (w: int)
    requires width > 0 && first <= last
    ensures w >= width && (Bucket(last, w) - Bucket(first, w)) / w < MAX_BINS
    decreases last - first - width
  {
    if (Bucket(last, width) - Bucket(first, width)) / width < MAX_BINS then width
    else
      SpanIsWide(first, last, width);
      Fit(first, last, 2 * width)
  }

  // Widening early, for a part of the span, makes no difference.
  lemma {:induction false} FitGrows(first: int, last: int, from: int, upto: int, width: int)
    requires width > 0 && from <= first <= last <= upto
    ensures Fit(from, upto, Fit(first, last, width)) == Fit(from, upto, width)
    decreases last - first - width
  {
    hide Bucket;
    if (Bucket(last, width) - Bucket(first, width)) / width >= MAX_BINS {
      SpanIsWide(first, last, width);
      BucketOrder(first, last, width);
      BucketOrder(from, upto, width);
      QuotientOrder(from, first, width);
      QuotientOrder(last, upto, width);
      FitGrows(first, last, from, upto, 2 * width);
    }
  }

  ghost function Doubled(n: nat): int { if n == 0 then 5 else 2 * Doubled(n - 1) }

  // The bins from first to last are fewer than 361, and half their width would not do.
  ghost predicate Tight(first: int, last: int, width: int) {
    && width >= 5 && (exists n: nat :: width == Doubled(n)) && last / width - first / width < 360
    && (width > 5 ==> width % 2 == 0 && last / (width / 2) - first / (width / 2) >= 360)
  }

  lemma {:induction false} FitMeans(first: int, last: int, n: nat)
    requires first <= last && Doubled(n) >= 5 && (n > 0 ==> last / Doubled(n - 1) - first / Doubled(n - 1) >= 360)
    ensures Tight(first, last, Fit(first, last, Doubled(n)))
    decreases last - first - Doubled(n)
  {
    var width := Doubled(n);
    BucketOrder(first, last, width);
    hide Bucket;
    if (Bucket(last, width) - Bucket(first, width)) / width >= MAX_BINS {
      SpanIsWide(first, last, width);
      assert Doubled(n + 1) == 2 * width;
      FitMeans(first, last, n + 1);
    } else if n > 0 {
      assert width / 2 == Doubled(n - 1);
    }
  }

  // The seconds the intervals cover.
  ghost predicate Spans(history: seq<Interval>, first: int, last: int) {
    && (forall i :: i in history && i.duration > 0 ==> first <= FirstSecond(i) && LastSecond(i) <= last)
    && (exists i :: i in history && i.duration > 0 && FirstSecond(i) == first)
    && (exists i :: i in history && i.duration > 0 && LastSecond(i) == last)
  }

  ghost predicate NoneCounts(history: seq<Interval>) { forall i :: i in history ==> i.duration <= 0 }

  // From the second in which the first of the nanoseconds falls to that of the last.
  ghost predicate Covered(history: seq<Interval>, first: int, last: int) {
    && (forall i :: i in history && i.duration > 0 ==> first * 1_000_000_000 <= i.at - i.duration && i.at <= (last + 1) * 1_000_000_000)
    && (exists i :: i in history && i.duration > 0 && i.at - i.duration < (first + 1) * 1_000_000_000)
    && (exists i :: i in history && i.duration > 0 && last * 1_000_000_000 < i.at)
  }

  lemma SpansMeans(history: seq<Interval>, first: int, last: int)
    requires Spans(history, first, last)
    ensures Covered(history, first, last)
  {
    forall i | i in history && i.duration > 0
      ensures FirstSecond(i) * NANOS <= i.at - i.duration < (FirstSecond(i) + 1) * NANOS
      ensures LastSecond(i) * NANOS < i.at <= (LastSecond(i) + 1) * NANOS
    {
      DivisionIs(i.at - i.duration, NANOS);
      DivisionIs(i.at - 1, NANOS);
    }
  }

  // What the intervals have between two moments: their bytes in proportion, and their time.
  ghost function Held(history: seq<Interval>, from: int, upto: int): Bin {
    if history == [] then Bin(0.0, 0.0, 0.0)
    else
      var rest, i := Held(history[..|history| - 1], from, upto), history[|history| - 1];
      var lo, hi := if i.at - i.duration < from then from else i.at - i.duration, if i.at < upto then i.at else upto;
      if i.duration <= 0 || hi <= lo then rest
      else
        var time, all := (hi - lo) as real, i.duration as real;
        Bin(rest.received + i.received as real * (time / all), rest.sent + i.sent as real * (time / all), rest.peer + time)
  }

  lemma {:induction false} SharesMeans(history: seq<Interval>, k: int, width: int)
    ensures Shares(history, k, width) == Held(history, k * 1_000_000_000, (k + width) * 1_000_000_000)
  {
    hide Share, Plus;
    if history != [] {
      SharesMeans(history[..|history| - 1], k, width);
      ShareMeans(Shares(history[..|history| - 1], k, width), history[|history| - 1], k, width);
    }
  }

  lemma ShareMeans(rest: Bin, i: Interval, k: int, width: int)
    ensures var from, upto := k * 1_000_000_000, (k + width) * 1_000_000_000;
      var lo, hi := if i.at - i.duration < from then from else i.at - i.duration, if i.at < upto then i.at else upto;
      Plus(rest, Share(i, k, width)) == if i.duration <= 0 || hi <= lo then rest else
        var time, all := (hi - lo) as real, i.duration as real;
        Bin(rest.received + i.received as real * (time / all), rest.sent + i.sent as real * (time / all), rest.peer + time)
  {
    OverlapMeans(i, k, width);
    PlusNothing(rest);
    hide Overlap;
    if i.duration > 0 && Overlap(i, k, width) == 0 {
      hide Part, Plus;
      PartsJoin(i, 0, 0);
    }
  }

  lemma OverlapMeans(i: Interval, k: int, width: int)
    ensures var from, upto := k * 1_000_000_000, (k + width) * 1_000_000_000;
      var lo, hi := if i.at - i.duration < from then from else i.at - i.duration, if i.at < upto then i.at else upto;
      Overlap(i, k, width) == if hi <= lo then 0 else hi - lo
  {
  }

  // Every bin, and exactly the bins that hold anything.
  ghost predicate Drawn(history: seq<Interval>, bins: map<Slot, Bin>, width: int)
    requires width > 0
  {
    && (forall k :: k in bins ==> k.start % width == 0 && bins[k] == Held(history, k.start * 1_000_000_000, (k.start + width) * 1_000_000_000))
    && (forall k: Slot :: k.start % width == 0 && Held(history, k.start * 1_000_000_000, (k.start + width) * 1_000_000_000).peer > 0.0 ==> k in bins)
  }

  lemma PicturesMean(history: seq<Interval>, bins: map<Slot, Bin>, width: int, first: int, last: int)
    requires width > 0 && Pictures(bins, history, width) && Shaped(bins, width, first, last)
    ensures Drawn(history, bins, width)
  {
    hide Held, Shares;
    forall k: Slot ensures Aligned(k, width) <==> k.start % width == 0 {
      BucketIsFloor(k.start, width);
      if k.start % width == 0 { QuotientIsUnique(k.start, width, k.start / width); }
    }
    hide Bucket;
    forall k: Slot ensures Shares(history, k.start, width) == Held(history, k.start * 1_000_000_000, (k.start + width) * 1_000_000_000) {
      SharesMeans(history, k.start, width);
    }
  }

  lemma SpansMore(history: seq<Interval>, first: int, last: int, i: Interval)
    requires i.duration > 0 && (NoneCounts(history) || Spans(history, first, last))
    ensures Spans(history + [i], if NoneCounts(history) then FirstSecond(i) else MinInt(first, FirstSecond(i)),
                  if NoneCounts(history) then LastSecond(i) else MaxInt(last, LastSecond(i)))
  {
    var now := history + [i];
    assert now[|history|] == i && forall j :: j in history ==> j in now;
  }

  lemma SpansSame(history: seq<Interval>, first: int, last: int, i: Interval)
    requires i.duration <= 0 && Spans(history, first, last)
    ensures Spans(history + [i], first, last)
  {
    assert forall j :: j in history ==> j in history + [i];
  }

  lemma NoneStays(history: seq<Interval>, i: Interval)
    requires i.duration <= 0
    ensures NoneCounts(history + [i]) <==> NoneCounts(history)
  {
    assert forall j :: j in history ==> j in history + [i];
  }

  lemma SomeCounts(history: seq<Interval>, i: Interval)
    requires i.duration > 0
    ensures !NoneCounts(history + [i])
  {
    assert (history + [i])[|history|] == i;
  }

  class Timeline {
    var width: int
    var first: int
    var last: int
    var bins: map<Slot, Bin>

    // Everything added so far.
    ghost var history: seq<Interval>

    ghost predicate Valid()
      reads this
    {
      && width > 0 && (bins == map[] ==> width == FIRST_WIDTH) && (bins == map[] || (first <= last && Shaped(bins, width, first, last)))
      && (bins != map[] ==> Spans(history, first, last) && width == Fit(first, last, FIRST_WIDTH))
      && (bins == map[] <==> NoneCounts(history))
      && Pictures(bins, history, width) && Lit(bins)
    }

    constructor ()
      ensures Valid() && bins == map[] && history == []
    {
      width, first, last, bins, history := FIRST_WIDTH, 0, 0, map[], [];
    }

    // Double the width once, merging pairs of bins.
    method Widen()
      requires width > 0 && first <= last && Shaped(bins, width, first, last)
      requires Pictures(bins, history, width) && Lit(bins)
      modifies this`width, this`bins
      ensures width == 2 * old(width) && Shaped(bins, width, first, last)
      ensures forall m :: Area(bins, m) == Area(old(bins), m)
      ensures Pictures(bins, history, width) && Lit(bins)
    {
      hide Bucket, Area, Pictures, Merged;
      var narrow, from, upto := width, first, last;
      var merged := Merge(bins, narrow, from, upto);
      MergedPictures(bins, merged, narrow, history);
      width, bins := 2 * narrow, merged;
    }

    // Widen until the span fits.
    method WidenToFit()
      requires width > 0 && first <= last && Shaped(bins, width, first, last)
      requires Pictures(bins, history, width) && Lit(bins)
      modifies this`width, this`bins
      ensures width == Fit(first, last, old(width)) && Shaped(bins, width, first, last)
      ensures forall m :: Area(bins, m) == Area(old(bins), m)
      ensures Pictures(bins, history, width) && Lit(bins)
    {
      hide Bucket, Area, Pictures;
      while (Bucket(last, width) - Bucket(first, width)) / width >= MAX_BINS
        invariant width > 0 && Fit(first, last, width) == Fit(first, last, old(width)) && Shaped(bins, width, first, last)
        invariant forall m :: Area(bins, m) == Area(old(bins), m)
        invariant Pictures(bins, history, width) && Lit(bins)
        decreases last - first - width
      {
        SpanIsWide(first, last, width);
        Widen();
      }
    }

    // Put one overlap into its bin.
    method Put(at: int, i: Interval, overlap: int)
      requires width > 0 && i.duration > 0 && overlap > 0 && Shaped(bins, width, first, last) && Lit(bins)
      requires Bucket(at, width) == at && Bucket(first, width) <= at <= Bucket(last, width)
      modifies this`bins
      ensures Shaped(bins, width, first, last) && bins != map[] && Lit(bins)
      ensures forall m :: Area(bins, m) == Area(old(bins), m) + Of(Part(i, overlap), m)
      ensures bins == old(bins)[Slot(at) := Plus(At(old(bins), Slot(at)), Part(i, overlap))]
    {
      forall m ensures Area(bins[Slot(at) := Plus(At(bins, Slot(at)), Part(i, overlap))], m) == Area(bins, m) + Of(Part(i, overlap), m) {
        AreaGrows(bins, Slot(at), Part(i, overlap), m);
      }
      LitMore(bins, Slot(at), Part(i, overlap));
      bins := bins[Slot(at) := Plus(At(bins, Slot(at)), Part(i, overlap))];
      assert Slot(at) in bins;
    }

    /** Spread one interval over the bins it overlaps: every byte and every nanosecond of it
        is found under the curve, none twice, no earlier amount changes, and every bin still
        holds exactly the shares of all intervals that fall into it. */
    method Add(i: Interval)
      requires Valid()
      modifies this
      ensures Valid() && width >= old(width) && history == old(history) + [i]
      ensures i.duration <= 0 ==> bins == old(bins)
      ensures i.duration > 0 ==> forall m :: Area(bins, m) == Area(old(bins), m) + Amount(i, m)
      ensures |bins| <= 360
      ensures bins != map[] ==> Covered(history, first, last) && Tight(first, last, width)
      ensures width > 0 && Drawn(history, bins, width)
    {
      hide Bucket, Area, Of, Amount, Pictures, Spans, NoneCounts, Fit, Covered, Tight, Drawn;
      ghost var before := history;
      if i.duration <= 0 {
        NothingMore(bins, i, width, history);
        history := history + [i];
        NoneStays(before, i);
        if bins != map[] {
          SpansSame(before, first, last, i);
          BinsAreFew(bins, width, first, last);
          IsDrawn();
        } else {
          PicturesMean(history, bins, width, 0, 0);
        }
        return;
      }
      var start := i.at - i.duration;
      var firstSecond, lastSecond := start / NANOS, (i.at - 1) / NANOS;
      if bins == map[] { width, first, last := FIRST_WIDTH, firstSecond, lastSecond; }
      ghost var wasFirst, wasLast := first, last;
      if firstSecond < first { first := firstSecond; }
      if lastSecond > last { last := lastSecond; }
      StillShaped(bins, width, wasFirst, wasLast, first, last);
      SpansMore(before, wasFirst, wasLast, i);
      if bins != map[] { FitGrows(wasFirst, wasLast, first, last, FIRST_WIDTH); }
      WidenToFit();
      Spread(i, start, firstSecond, lastSecond);
      SomeCounts(before, i);
      history := history + [i];
      BinsAreFew(bins, width, first, last);
      IsDrawn();
    }

    lemma IsDrawn()
      requires width > 0 && first <= last && Shaped(bins, width, first, last) && Pictures(bins, history, width)
      requires Spans(history, first, last) && width == Fit(first, last, FIRST_WIDTH)
      ensures Covered(history, first, last) && Tight(first, last, width) && Drawn(history, bins, width)
    {
      hide Fit, Pictures, Shaped, Spans, Covered, Tight, Drawn;
      SpansMeans(history, first, last);
      FitMeans(first, last, 0);
      assert Doubled(0) == FIRST_WIDTH;
      PicturesMean(history, bins, width, first, last);
    }

    method Spread(i: Interval, start: int, firstSecond: int, lastSecond: int)
      requires width > 0 && i.duration > 0 && start == i.at - i.duration && Shaped(bins, width, first, last)
      requires firstSecond == start / NANOS && lastSecond == (i.at - 1) / NANOS && first <= firstSecond && lastSecond <= last
      requires Pictures(bins, history, width) && Lit(bins)
      modifies this`bins
      ensures Shaped(bins, width, first, last) && bins != map[]
      ensures forall m :: Area(bins, m) == Area(old(bins), m) + Amount(i, m)
      ensures Pictures(bins, history + [i], width) && Lit(bins)
    {
      hide Area, Of, Part, Amount, Bucket, Pictures, SpreadBefore, Plus;
      var at := Bucket(firstSecond, width);
      ghost var placed := 0;
      BucketIsFloor(firstSecond, width);
      BucketAgain(firstSecond, width);
      DivisionIs(start, NANOS);
      DivisionIs(i.at - 1, NANOS);
      assert at * NANOS <= start;
      forall m ensures Of(Part(i, 0), m) == 0.0 { PartsAdd(i, 0, 0, m); }
      SpreadNothing(bins, i, width, at);
      while at <= lastSecond
        invariant Bucket(at, width) == at && Bucket(firstSecond, width) <= at && Shaped(bins, width, first, last) && Lit(bins)
        invariant placed == MaxInt(0, MinInt(i.at, at * NANOS) - start)
        invariant at > Bucket(firstSecond, width) ==> bins != map[] && at * NANOS > start
        invariant forall m :: Area(bins, m) == Area(old(bins), m) + Of(Part(i, placed), m)
        invariant SpreadBefore(old(bins), bins, i, width, at)
        decreases lastSecond - at
      {
        var begin, finish := at * NANOS, (at + width) * NANOS;
        if start > begin { begin := start; }
        if i.at < finish { finish := i.at; }
        var overlap := finish - begin;
        ghost var was := bins;
        InRange(at, firstSecond, lastSecond, first, last, width);
        assert overlap == Overlap(i, at, width);
        SpreadStep(old(bins), bins, i, width, at);
        Put(at, i, overlap);
        forall m ensures Area(bins, m) == Area(old(bins), m) + Of(Part(i, placed + overlap), m) { PartsAdd(i, placed, overlap, m); }
        placed := placed + overlap;
        at := at + width;
      }
      forall m ensures Of(Part(i, i.duration), m) == Amount(i, m) { PartsAdd(i, 0, i.duration, m); }
      SpreadAll(old(bins), bins, i, width, at, history);
    }
  }

  // ------------------------------------------------------ order of arrival

  function Without(history: seq<Interval>, j: nat): seq<Interval>
    requires j < |history|
  {
    history[..j] + history[j + 1..]
  }

  lemma {:induction false} SharesWithout(history: seq<Interval>, j: nat, k: int, width: int)
    requires j < |history|
    ensures Shares(history, k, width) == Plus(Shares(Without(history, j), k, width), Share(history[j], k, width))
  {
    hide Share;
    var n := |history| - 1;
    if j == n {
      assert Without(history, j) == history[..n];
    } else {
      SharesWithout(history[..n], j, k, width);
      assert Without(history, j)[..n - 1] == Without(history[..n], j);
    }
  }

  lemma WithoutOne(history: seq<Interval>, j: nat)
    requires j < |history|
    ensures multiset(history) == multiset(Without(history, j)) + multiset{history[j]}
  {
    assert history == history[..j] + [history[j]] + history[j + 1..];
  }

  lemma SamePart(a: multiset<Interval>, b: multiset<Interval>, i: Interval)
    requires a + multiset{i} == b + multiset{i}
    ensures a == b
  {
    assert a == (a + multiset{i}) - multiset{i};
  }

  lemma {:induction false} SharesPermute(a: seq<Interval>, b: seq<Interval>, k: int, width: int)
    requires multiset(a) == multiset(b)
    ensures Shares(a, k, width) == Shares(b, k, width)
  {
    if a == [] {
      assert |a| == |multiset(a)| == |multiset(b)| == |b|;
    } else {
      hide Share, Plus;
      var n := |a| - 1;
      assert Without(a, n) == a[..n];
      WithoutOne(a, n);
      assert a[n] in multiset(b);
      var j :| 0 <= j < |b| && b[j] == a[n];
      WithoutOne(b, j);
      assert multiset(a[..n]) + multiset{a[n]} == multiset(Without(b, j)) + multiset{a[n]};
      SamePart(multiset(a[..n]), multiset(Without(b, j)), a[n]);
      SharesPermute(a[..n], Without(b, j), k, width);
      SharesWithout(b, j, k, width);
    }
  }

  lemma SpansPermute(a: seq<Interval>, b: seq<Interval>, first: int, last: int)
    requires multiset(a) == multiset(b)
    ensures Spans(a, first, last) <==> Spans(b, first, last)
    ensures NoneCounts(a) <==> NoneCounts(b)
  {
    assert forall i :: i in a <==> i in multiset(a);
    assert forall i :: i in b <==> i in multiset(b);
  }

  lemma SpansIsUnique(history: seq<Interval>, first: int, last: int, from: int, upto: int)
    requires Spans(history, first, last) && Spans(history, from, upto)
    ensures first == from && last == upto
  {
    hide FirstSecond, LastSecond;
  }

  /** Whatever the order in which the same intervals arrive, and however often the width was
      doubled on the way, the timeline ends with the same width and the same bins. */
  lemma TimelineIsDetermined(a: Timeline, b: Timeline)
    requires a.Valid() && b.Valid() && multiset(a.history) == multiset(b.history)
    ensures a.width == b.width && a.bins == b.bins
    ensures a.bins != map[] ==> a.first == b.first && a.last == b.last
  {
    hide Bucket, Shares, Spans, NoneCounts, Fit, Lit;
    SpansPermute(a.history, b.history, a.first, a.last);
    if a.bins != map[] { SpansIsUnique(b.history, a.first, a.last, b.first, b.last); }
    forall k | Aligned(k, a.width) ensures Shares(a.history, k.start, a.width) == Shares(b.history, k.start, a.width) {
      SharesPermute(a.history, b.history, k.start, a.width);
    }
    SameBins(a.bins, b.bins, a.width);
  }

  lemma MergedIsShaped(at: int, width: int, first: int, last: int)
    requires width > 0 && Bucket(at, width) == at && Bucket(first, width) <= at <= Bucket(last, width)
    ensures var k := Bucket(at, 2 * width); Bucket(k, 2 * width) == k && Bucket(first, 2 * width) <= k <= Bucket(last, 2 * width)
  {
    BucketAgain(at, 2 * width);
    BucketAgain(first, width);
    BucketAgain(last, width);
    BucketOrder(Bucket(first, width), at, 2 * width);
    BucketOrder(at, Bucket(last, width), 2 * width);
  }

  lemma SpanIsWide(first: int, last: int, width: int)
    requires width > 0 && first <= last && (Bucket(last, width) - Bucket(first, width)) / width >= MAX_BINS
    ensures last - first - width > 0
  {
    BucketIsFloor(first, width);
    BucketIsFloor(last, width);
    var span := Bucket(last, width) - Bucket(first, width);
    DivisionIs(span, width);
    Products(MAX_BINS, span / width, width);
  }

  // A wider range of seconds keeps all bins in range.
  lemma StillShaped(bins: map<Slot, Bin>, width: int, wasFirst: int, wasLast: int, first: int, last: int)
    requires width > 0 && first <= wasFirst && wasLast <= last && (bins == map[] || Shaped(bins, width, wasFirst, wasLast))
    ensures Shaped(bins, width, first, last)
  {
    BucketOrder(first, wasFirst, width);
    BucketOrder(wasLast, last, width);
  }

  lemma InRange(at: int, firstSecond: int, lastSecond: int, first: int, last: int, width: int)
    requires width > 0 && Bucket(at, width) == at && Bucket(firstSecond, width) <= at <= lastSecond && first <= firstSecond && lastSecond <= last
    ensures Bucket(first, width) <= at <= Bucket(last, width)
    ensures Bucket(at + width, width) == at + width
  {
    hide Bucket;
    BucketOrder(first, firstSecond, width);
    BucketOrder(at, last, width);
    NextBucket(at, width);
  }

  lemma NextBucket(at: int, width: int)
    requires width > 0 && Bucket(at, width) == at
    ensures Bucket(at + width, width) == at + width
  {
    BucketIsFloor(at, width);
    BucketIsFloor(at + width, width);
    hide Bucket;
    var q := at / width;
    Products(q, q + 1, width);
    assert (q + 1) * width == q * width + width;
    QuotientIsUnique(at + width, width, q + 1);
  }

  lemma AreaIs(bins: map<Slot, Bin>, m: Measure)
    ensures Area(bins, m) == Sum(bins.Keys, bins, m) && Area(map[], m) == 0.0
  {
  }

  lemma SumNothing(bins: map<Slot, Bin>, m: Measure)
    ensures Sum({}, bins, m) == 0.0
  {
  }
}
