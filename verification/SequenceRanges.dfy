/** Received source sequence numbers of one session, kept as coalesced intervals.

    `Insert` is the simple left-to-right specification of receiving one number.
    `RangeList` is the program's form: a binary search followed by an edit in place.
    The interval list is a canonical representation of the received set, so neither
    order nor repetition of the arrivals can be observed in it.
 */
module SequenceRanges {

  // Go's uint64: every operation on it is checked not to wrap around.
  newtype uint64 = x: int | 0 <= x < 0x1_0000_0000_0000_0000

  datatype Range = Range(first: uint64, last: uint64)

  // Sorted, disjoint, non-adjacent, and never containing the reserved number 0.
  ghost predicate Canonical(rs: seq<Range>) {
    && (forall i :: 0 <= i < |rs| ==> 1 <= rs[i].first <= rs[i].last)
    && (forall i, j :: 0 <= i < j < |rs| ==> rs[i].last as int + 1 < rs[j].first as int)
  }

  ghost predicate Has(rs: seq<Range>, x: uint64) {
    exists i :: 0 <= i < |rs| && rs[i].first <= x <= rs[i].last
  }

  // All numbers of the inclusive stretch [from, to] were received.
  ghost predicate HasAll(rs: seq<Range>, from: uint64, to: uint64) {
    forall x :: from <= x <= to ==> Has(rs, x)
  }

  function Min(a: uint64, b: uint64): uint64 { if a < b then a else b }
  function Max(a: uint64, b: uint64): uint64 { if a < b then b else a }

  function Insert(rs: seq<Range>, s: uint64): seq<Range> {
    if s == 0 then rs
    else if rs == [] then [Range(s, s)]
    else if s as int + 1 < rs[0].first as int then [Range(s, s)] + rs
    else if s as int <= rs[0].last as int + 1 then
      var head := Range(Min(rs[0].first, s), Max(rs[0].last, s));
      if |rs| > 1 && rs[1].first as int <= head.last as int + 1
      then [Range(head.first, Max(head.last, rs[1].last))] + rs[2..]
      else [head] + rs[1..]
    else [rs[0]] + Insert(rs[1..], s)
  }

  function InsertAll(rs: seq<Range>, xs: seq<uint64>): seq<Range> {
    if xs == [] then rs else Insert(InsertAll(rs, xs[..|xs| - 1]), xs[|xs| - 1])
  }

  // ---------------------------------------------------------------- Insert

  lemma HasCons(r: Range, rs: seq<Range>, x: uint64)
    ensures Has([r] + rs, x) <==> r.first <= x <= r.last || Has(rs, x)
  {
    var all := [r] + rs;
    if r.first <= x <= r.last { assert all[0] == r; }
    if Has(rs, x) {
      var i :| 0 <= i < |rs| && rs[i].first <= x <= rs[i].last;
      assert all[i + 1] == rs[i];
    }
    if Has(all, x) {
      var i :| 0 <= i < |all| && all[i].first <= x <= all[i].last;
      if i > 0 { assert rs[i - 1] == all[i]; }
    }
  }

  lemma CanonicalTail(rs: seq<Range>)
    requires Canonical(rs) && rs != []
    ensures Canonical(rs[1..])
  {
  }

  lemma CanonicalCons(r: Range, rs: seq<Range>)
    requires Canonical(rs) && 1 <= r.first <= r.last
    requires rs != [] ==> r.last as int + 1 < rs[0].first as int
    ensures Canonical([r] + rs)
  {
    var all := [r] + rs;
    forall i, j | 0 <= i < j < |all| ensures all[i].last as int + 1 < all[j].first as int {
      assert all[j] == rs[j - 1];
      if i > 0 { assert all[i] == rs[i - 1]; }
      else if j > 1 { assert rs[0].last as int + 1 < rs[j - 1].first as int; }
    }
  }

  // A number within or next to the first interval.
  ghost predicate Touches(rs: seq<Range>, s: uint64) {
    Canonical(rs) && rs != [] && s != 0 && rs[0].first as int <= s as int + 1 && s as int <= rs[0].last as int + 1
  }

  function Widened(r: Range, s: uint64): Range { Range(Min(r.first, s), Max(r.last, s)) }

  // Widening that interval, and joining the next one if they meet now.
  lemma WidenIsCanonical(rs: seq<Range>, s: uint64)
    requires Touches(rs, s)
    ensures Canonical(Insert(rs, s)) && Insert(rs, s) != [] && Insert(rs, s)[0].first == Min(rs[0].first, s)
  {
    var head := Widened(rs[0], s);
    if |rs| > 1 && rs[1].first as int <= head.last as int + 1 {
      var rest := rs[2..];
      if rest != [] { assert rest[0] == rs[2]; }
      CanonicalCons(Range(head.first, Max(head.last, rs[1].last)), rest);
    } else {
      if rs[1..] != [] { assert rs[1..][0] == rs[1]; }
      CanonicalCons(head, rs[1..]);
    }
  }

  lemma WidenHas(rs: seq<Range>, s: uint64)
    requires Touches(rs, s)
    ensures forall x :: Has(Insert(rs, s), x) <==> Has(rs, x) || x == s
  {
    hide Has;
    var tail, head := rs[1..], Widened(rs[0], s);
    assert rs == [rs[0]] + tail;
    HasConsAll(rs[0], tail);
    if |rs| > 1 && rs[1].first as int <= head.last as int + 1 {
      assert tail == [rs[1]] + rs[2..];
      HasConsAll(rs[1], rs[2..]);
      HasConsAll(Range(head.first, Max(head.last, rs[1].last)), rs[2..]);
    } else {
      HasConsAll(head, tail);
    }
  }

  /** Receiving s keeps the list canonical and adds exactly s to the received set. */
  lemma {:induction false} InsertReceives(rs: seq<Range>, s: uint64)
    requires Canonical(rs)
    ensures Canonical(Insert(rs, s))
    ensures rs != [] && Insert(rs, s) != [] && s != 0 ==> Insert(rs, s)[0].first == Min(rs[0].first, s)
    ensures forall x :: Has(Insert(rs, s), x) <==> Has(rs, x) || (x == s && s != 0)
  {
    if s == 0 || rs == [] {
      if rs == [] && s != 0 { HasConsAll(Range(s, s), []); assert [Range(s, s)] + [] == [Range(s, s)]; }
    } else if s as int + 1 < rs[0].first as int {
      CanonicalCons(Range(s, s), rs);
      HasConsAll(Range(s, s), rs);
    } else if s as int <= rs[0].last as int + 1 {
      WidenIsCanonical(rs, s);
      WidenHas(rs, s);
    } else {
      var tail, done := rs[1..], Insert(rs[1..], s);
      CanonicalTail(rs);
      assert rs == [rs[0]] + tail;
      HasConsAll(rs[0], tail);
      InsertReceives(tail, s);
      if tail != [] { assert tail[0] == rs[1]; }
      CanonicalCons(rs[0], done);
      HasConsAll(rs[0], done);
    }
  }

  lemma HasConsAll(r: Range, rs: seq<Range>)
    ensures forall x :: Has([r] + rs, x) <==> r.first <= x <= r.last || Has(rs, x)
  {
    forall x ensures Has([r] + rs, x) <==> r.first <= x <= r.last || Has(rs, x) { HasCons(r, rs, x); }
  }

  // ------------------------------------------------------- canonical form

  lemma CanonicalFirst(rs: seq<Range>, x: uint64)
    requires Canonical(rs) && Has(rs, x)
    ensures rs != [] && rs[0].first <= x
  {
  }

  lemma HeadAgrees(a: seq<Range>, b: seq<Range>)
    requires Canonical(a) && Canonical(b) && a != [] && b != []
    requires forall x :: Has(a, x) <==> Has(b, x)
    ensures a[0] == b[0]
  {
    assert Has(a, a[0].first) && Has(b, b[0].first);
    CanonicalFirst(b, a[0].first);
    CanonicalFirst(a, b[0].first);
    HeadEnds(a, b);
    HeadEnds(b, a);
  }

  lemma HeadEnds(a: seq<Range>, b: seq<Range>)
    requires Canonical(a) && Canonical(b) && a != [] && b != []
    requires a[0].first == b[0].first
    requires forall x :: Has(a, x) ==> Has(b, x)
    ensures a[0].last <= b[0].last
  {
    if b[0].last < a[0].last {
      assert Has(a, b[0].last + 1);
    }
  }

  /** The canonical list is determined by the received set alone. */
  lemma {:induction false} CanonicalIsUnique(a: seq<Range>, b: seq<Range>)
    requires Canonical(a) && Canonical(b)
    requires forall x :: Has(a, x) <==> Has(b, x)
    ensures a == b
  {
    if a != [] { assert Has(a, a[0].first); }
    if b != [] { assert Has(b, b[0].first); }
    if a != [] && b != [] {
      HeadAgrees(a, b);
      var ta, tb := a[1..], b[1..];
      CanonicalTail(a);
      CanonicalTail(b);
      assert a == [a[0]] + ta && b == [b[0]] + tb;
      HasConsAll(a[0], ta);
      HasConsAll(b[0], tb);
      forall x ensures Has(ta, x) <==> Has(tb, x) {
        TailAboveHead(a, x);
        TailAboveHead(b, x);
      }
      CanonicalIsUnique(ta, tb);
    }
  }

  lemma TailAboveHead(rs: seq<Range>, x: uint64)
    requires Canonical(rs) && rs != []
    ensures Has(rs[1..], x) ==> rs[0].last < x
  {
    if Has(rs[1..], x) {
      var i :| 0 <= i < |rs[1..]| && rs[1..][i].first <= x <= rs[1..][i].last;
      assert rs[i + 1] == rs[1..][i];
    }
  }

  lemma {:induction false} InsertAllReceives(xs: seq<uint64>)
    ensures Canonical(InsertAll([], xs))
    ensures forall x :: Has(InsertAll([], xs), x) <==> x != 0 && x in xs
  {
    if xs != [] {
      var n := |xs| - 1;
      InsertAllReceives(xs[..n]);
      InsertReceives(InsertAll([], xs[..n]), xs[n]);
      assert xs == xs[..n] + [xs[n]];
    }
  }

  /** Reordering and repeating the arrivals gives the very same interval list. */
  lemma ArrivalOrderIsInvisible(xs: seq<uint64>, ys: seq<uint64>)
    requires forall x :: x in xs <==> x in ys
    ensures InsertAll([], xs) == InsertAll([], ys)
  {
    InsertAllReceives(xs);
    InsertAllReceives(ys);
    CanonicalIsUnique(InsertAll([], xs), InsertAll([], ys));
  }

  // ------------------------------------------------------- program's form

  lemma InsertPast(rs: seq<Range>, s: uint64)
    requires rs != [] && s != 0 && rs[0].first <= rs[0].last && rs[0].last as int + 1 < s as int
    ensures Insert(rs, s) == [rs[0]] + Insert(rs[1..], s)
  {
  }

  lemma Regroup(rs: seq<Range>, i: nat, rest: seq<Range>)
    requires 0 < i <= |rs|
    ensures [rs[0]] + (rs[1..][..i - 1] + rest) == rs[..i] + rest
  {
  }

  // Insert at an interval found by position rather than by walking from the left.
  lemma {:induction false} InsertAt(rs: seq<Range>, s: uint64, i: nat)
    requires Canonical(rs) && s != 0 && i <= |rs|
    requires forall k :: 0 <= k < i ==> rs[k].last as int + 1 < s as int
    ensures Insert(rs, s) == rs[..i] + Insert(rs[i..], s)
  {
    if i == 0 {
      assert rs[0..] == rs && rs[..0] == [];
    } else {
      var tail := rs[1..];
      CanonicalTail(rs);
      InsertAt(tail, s, i - 1);
      InsertPast(rs, s);
      assert tail[i - 1..] == rs[i..];
      Regroup(rs, i, Insert(rs[i..], s));
    }
  }

  // The edit Add makes at position i, spelled out for each of its four outcomes.
  lemma InsertEdit(rs: seq<Range>, s: uint64, i: nat)
    requires Canonical(rs) && s != 0 && i <= |rs|
    requires forall k :: 0 <= k < i ==> rs[k].last as int + 1 < s as int
    requires i < |rs| ==> s as int <= rs[i].last as int + 1
    ensures i == |rs| ==> Insert(rs, s) == rs + [Range(s, s)]
    ensures i < |rs| && s as int + 1 < rs[i].first as int ==> Insert(rs, s) == rs[..i] + [Range(s, s)] + rs[i..]
    ensures i < |rs| && rs[i].first as int <= s as int + 1 ==>
              var r := Range(Min(rs[i].first, s), Max(rs[i].last, s));
              Insert(rs, s) ==
                if i + 1 < |rs| && rs[i + 1].first as int <= r.last as int + 1
                then rs[..i] + [Range(r.first, Max(r.last, rs[i + 1].last))] + rs[i + 2..]
                else rs[..i] + [r] + rs[i + 1..]
  {
    InsertAt(rs, s, i);
    var rest := rs[i..];
    if i == |rs| {
      assert rest == [] && rs[..i] == rs;
    } else {
      assert rest[0] == rs[i] && rest[1..] == rs[i + 1..];
      if i + 1 < |rs| { assert rest[1] == rs[i + 1] && rest[2..] == rs[i + 2..]; }
    }
  }

  class RangeList {
    var items: seq<Range>

    constructor ()
      ensures items == []
    {
      items := [];
    }

    // sort.Search over "this interval ends at or after sequence - 1".
    method Search(bound: uint64) returns (i: nat)
      requires Canonical(items)
      ensures i <= |items|
      ensures forall k :: 0 <= k < i ==> items[k].last < bound
      ensures forall k :: i <= k < |items| ==> bound <= items[k].last
    {
      var lo, hi := 0, |items|;
      while lo < hi
        invariant 0 <= lo <= hi <= |items|
        invariant forall k :: 0 <= k < lo ==> items[k].last < bound
        invariant forall k :: hi <= k < |items| ==> bound <= items[k].last
      {
        var mid := (lo + hi) / 2;
        if items[mid].last >= bound { hi := mid; } else { lo := mid + 1; }
      }
      i := lo;
    }

    method Add(sequence: uint64)
      requires Canonical(items)
      modifies this
      ensures items == Insert(old(items), sequence) && Canonical(items)
      ensures forall x :: Has(items, x) <==> Has(old(items), x) || (x == sequence && sequence != 0)
    {
      InsertReceives(items, sequence);
      hide Has, Insert;
      if sequence == 0 { return; }
      var i := Search(sequence - 1);
      InsertEdit(items, sequence, i);
      if i == |items| {
        items := items + [Range(sequence, sequence)];
        return;
      }
      var r := items[i];
      if sequence < r.first && r.first - sequence > 1 {
        items := items[..i] + [Range(sequence, sequence)] + items[i..];
        return;
      }
      r := Range(Min(r.first, sequence), Max(r.last, sequence));
      if i + 1 < |items| && items[i + 1].first - r.last <= 1 {
        r := Range(r.first, Max(r.last, items[i + 1].last));
        items := items[..i] + [r] + items[i + 2..];
      } else {
        items := items[..i] + [r] + items[i + 1..];
      }
    }

    /** The end of the unbroken stretch that starts at `start`, or 0 if it is missing. */
    method Through(start: uint64) returns (end: uint64)
      requires Canonical(items)
      ensures end == 0 <==> !Has(items, start)
      ensures end != 0 ==> start <= end && HasAll(items, start, end)
      ensures end != 0 && end as int + 1 < 0x1_0000_0000_0000_0000 ==> !Has(items, end + 1)
    {
      var i := Search(start);
      if start == 0 || i == |items| || items[i].first > start { return 0; }
      end := items[i].last;
    }
  }

  // Functional reading of Through, used where only values are at hand.
  ghost predicate IsThrough(rs: seq<Range>, start: uint64, end: uint64) {
    && (end == 0 <==> !Has(rs, start))
    && (end != 0 ==> start <= end && HasAll(rs, start, end))
    && (end != 0 && end as int + 1 < 0x1_0000_0000_0000_0000 ==> !Has(rs, end + 1))
  }

  /** The stretch end is a function of the received set: two lists holding the same
      numbers cannot disagree about it. */
  lemma ThroughIsDetermined(a: seq<Range>, b: seq<Range>, start: uint64, m: uint64, n: uint64)
    requires IsThrough(a, start, m) && IsThrough(b, start, n)
    requires forall x :: Has(a, x) <==> Has(b, x)
    ensures m == n
  {
  }
}
