/** Splitting telemetry and heartbeats into request bodies that respect the receivers'
    limits. An encoding is represented by its length; `None` is a value that cannot be
    encoded.
 */
module WireBatches {
  import opened Model

  const MAX_BYTES: nat := 10 * 1024 * 1024
  const MAX_EVENTS: nat := 5000

  // Bytes of the first k encodings, separated by commas.
  function Joined(sizes: seq<nat>): nat {
    if sizes == [] then 0
    else Joined(sizes[..|sizes| - 1]) + sizes[|sizes| - 1] + if |sizes| > 1 then 1 else 0
  }

  // Body length: opening envelope, list, and the two closing brackets.
  function Body(envelope: nat, sizes: seq<nat>): nat { envelope + Joined(sizes) + 2 }

  ghost function Added(sizes: seq<nat>): nat { if sizes == [] then 0 else sizes[0] + Added(sizes[1..]) }

  // The list is its elements and a comma between each two.
  lemma {:induction false} BodyMeans(envelope: nat, sizes: seq<nat>)
    ensures Body(envelope, sizes) == envelope + Added(sizes) + (if sizes == [] then 0 else |sizes| - 1) + 2
  {
    if sizes != [] {
      BodyMeans(envelope, sizes[..|sizes| - 1]);
      AddedLast(sizes);
    }
  }

  lemma {:induction false} AddedLast(sizes: seq<nat>)
    requires sizes != []
    ensures Added(sizes) == Added(sizes[..|sizes| - 1]) + sizes[|sizes| - 1]
  {
    if |sizes| > 1 {
      AddedLast(sizes[1..]);
      assert sizes[1..][..|sizes| - 2] == sizes[..|sizes| - 1][1..];
    }
  }

  ghost predicate Encodable(sizes: seq<Option<nat>>, k: nat) {
    k <= |sizes| && forall i :: 0 <= i < k ==> sizes[i].Some?
  }

  function Values(sizes: seq<Option<nat>>, k: nat): seq<nat>
    requires k <= |sizes| && forall i :: 0 <= i < k ==> sizes[i].Some?
  {
    seq(k, i requires 0 <= i < k => sizes[i].value)
  }

  // The first k events form an acceptable request.
  ghost predicate Acceptable(envelope: nat, sizes: seq<Option<nat>>, k: nat) {
    Encodable(sizes, k) && k <= MAX_EVENTS && Body(envelope, Values(sizes, k)) <= MAX_BYTES
  }

  lemma ValuesStep(sizes: seq<Option<nat>>, k: nat)
    requires Encodable(sizes, k + 1)
    ensures Values(sizes, k + 1) == Values(sizes, k) + [sizes[k].value]
    ensures Values(sizes, k + 1)[..k] == Values(sizes, k)
  {
  }

  lemma {:induction false} AcceptableShrinks(envelope: nat, sizes: seq<Option<nat>>, j: nat, k: nat)
    requires Acceptable(envelope, sizes, k) && j <= k
    ensures Acceptable(envelope, sizes, j)
    decreases k
  {
    if j < k {
      ValuesStep(sizes, k - 1);
      AcceptableShrinks(envelope, sizes, j, k - 1);
    }
  }

  /** The longest prefix, in source order, that the receiver accepts. No result at all
      means that not even the first event can ever be sent. */
  method MarshalPrefix(envelope: nat, sizes: seq<Option<nat>>) returns (count: Option<nat>)
    ensures count.Some? ==> Acceptable(envelope, sizes, count.value)
    ensures count.Some? ==> forall k: nat :: Acceptable(envelope, sizes, k) ==> k <= count.value
    ensures count.None? ==> forall k: nat :: k >= 1 ==> !Acceptable(envelope, sizes, k)
    ensures count.Some? && sizes != [] ==> count.value >= 1
  {
    var data := envelope;
    if data + 2 > MAX_BYTES {
      EnvelopeTooLarge(envelope, sizes);
      return None;
    }
    var n: nat := 0;
    var bound := if |sizes| < MAX_EVENTS then |sizes| else MAX_EVENTS;
    while n < bound
      invariant n <= bound && Acceptable(envelope, sizes, n)
      invariant data == envelope + Joined(Values(sizes, n))
    {
      var separator := if n > 0 then 1 else 0;
      if sizes[n].None? || data + separator + sizes[n].value + 2 > MAX_BYTES {
        NextRefused(envelope, sizes, n);
        if n > 0 { return Some(n); }
        return None;
      }
      ValuesStep(sizes, n);
      data := data + separator + sizes[n].value;
      n := n + 1;
    }
    count := Some(n);
  }

  lemma EnvelopeTooLarge(envelope: nat, sizes: seq<Option<nat>>)
    requires envelope + 2 > MAX_BYTES
    ensures forall k: nat :: !Acceptable(envelope, sizes, k)
  {
  }

  lemma NextRefused(envelope: nat, sizes: seq<Option<nat>>, n: nat)
    requires n < |sizes| && Acceptable(envelope, sizes, n)
    requires sizes[n].Some? ==>
      envelope + Joined(Values(sizes, n)) + (if n > 0 then 1 else 0) + sizes[n].value + 2 > MAX_BYTES
    ensures forall k: nat :: Acceptable(envelope, sizes, k) ==> k <= n
  {
    forall k: nat | Acceptable(envelope, sizes, k) ensures k <= n {
      if k > n {
        AcceptableShrinks(envelope, sizes, n + 1, k);
        ValuesStep(sizes, n);
      }
    }
  }

  // Admission: every event must fit an envelope of its own.
  method ValidateEventSizes(envelope: nat, sizes: seq<Option<nat>>) returns (ok: bool)
    ensures ok <==> forall i :: 0 <= i < |sizes| ==> Acceptable(envelope, [sizes[i]], 1)
  {
    if sizes == [] { assert |sizes| == 0; return true; }
    var overhead := envelope + 2;
    if overhead > MAX_BYTES {
      SingleAcceptable(envelope, sizes[0]);
      assert !Acceptable(envelope, [sizes[0]], 1);
      return false;
    }
    for i := 0 to |sizes|
      invariant forall j :: 0 <= j < i ==> Acceptable(envelope, [sizes[j]], 1)
    {
      SingleAcceptable(envelope, sizes[i]);
      if sizes[i].None? || sizes[i].value > MAX_BYTES - overhead { return false; }
    }
    ok := true;
  }

  lemma SingleAcceptable(envelope: nat, size: Option<nat>)
    ensures Acceptable(envelope, [size], 1) <==> size.Some? && envelope + size.value + 2 <= MAX_BYTES
  {
    if size.Some? {
      assert Values([size], 1) == [size.value];
      assert Joined([size.value]) == Joined([]) + size.value by { assert [size.value][..0] == []; }
      assert Encodable([size], 1);
    } else {
      assert [size][0].None?;
    }
  }

  /** Progress: what admission let in, a flush can send. Whatever else is queued behind an
      admitted head, a non-empty request can be built. */
  lemma AdmittedHeadIsSendable(envelope: nat, sizes: seq<Option<nat>>)
    requires sizes != []
    ensures Acceptable(envelope, [sizes[0]], 1) <==> exists k: nat :: k >= 1 && Acceptable(envelope, sizes, k)
  {
    if Acceptable(envelope, [sizes[0]], 1) {
      assert Values([sizes[0]], 1) == Values(sizes, 1);
      assert Acceptable(envelope, sizes, 1);
    }
    if k: nat :| k >= 1 && Acceptable(envelope, sizes, k) {
      AcceptableShrinks(envelope, sizes, 1, k);
      assert Values([sizes[0]], 1) == Values(sizes, 1);
    }
  }

  // ------------------------------------------------------ heartbeat batches

  // Consecutive [start, end) stretches of one captured inventory.
  datatype Batch = Batch(start: nat, end: nat)

  ghost predicate Chained(batches: seq<Batch>, from: nat, to: nat) {
    if batches == [] then from == to
    else batches[|batches| - 1].end == to && batches[|batches| - 1].start <= to
         && Chained(batches[..|batches| - 1], from, batches[|batches| - 1].start)
  }

  ghost predicate Fits(limit: nat, prefix: nat, sizes: seq<nat>, b: Batch) {
    b.start <= b.end <= |sizes| && Body(prefix, sizes[b.start..b.end]) <= limit
  }

  // With the next node it would not have fitted.
  ghost predicate Full(limit: nat, prefix: nat, sizes: seq<nat>, b: Batch) {
    b.start <= b.end < |sizes| && Body(prefix, sizes[b.start..b.end + 1]) > limit
  }

  lemma JoinedStep(sizes: seq<nat>, start: nat, i: nat)
    requires start <= i < |sizes|
    ensures Joined(sizes[start..i + 1]) == Joined(sizes[start..i]) + sizes[i] + if i > start then 1 else 0
  {
    assert sizes[start..i + 1] == sizes[start..i] + [sizes[i]];
  }

  // The nodes before start were handed over, in bodies that hold as many as they can.
  ghost predicate Sent(limit: nat, prefix: nat, sizes: seq<nat>, sent: seq<Batch>, start: nat) {
    && Chained(sent, 0, start)
    && forall b :: b in sent ==> Fits(limit, prefix, sizes, b) && (b.end < |sizes| ==> Full(limit, prefix, sizes, b))
  }

  lemma SendNext(limit: nat, prefix: nat, sizes: seq<nat>, sent: seq<Batch>, start: nat, end: nat)
    requires Sent(limit, prefix, sizes, sent, start) && Fits(limit, prefix, sizes, Batch(start, end))
    requires end < |sizes| ==> Full(limit, prefix, sizes, Batch(start, end))
    ensures Sent(limit, prefix, sizes, sent + [Batch(start, end)], end)
  {
    assert start <= end;
    hide Fits, Full;
    var more := sent + [Batch(start, end)];
    assert more[..|more| - 1] == sent;
  }

  /** Send an inventory in as many bodies as the limit demands. The bodies handed to the
      transport are consecutive, in order, within the limit, and none could hold the node
      after it; it succeeds exactly if every node fits alone and every body is delivered,
      and then they cover the whole inventory. An empty inventory is still sent once. */
  method SendBatches(limit: nat, prefix: nat, sizes: seq<nat>, delivered: nat -> bool) returns (sent: seq<Batch>, ok: bool)
    ensures exists to: nat :: to <= |sizes| && Sent(limit, prefix, sizes, sent, to)
    ensures forall k: nat :: k + 1 < |sent| ==> delivered(k)
    ensures ok ==> sent != [] && Sent(limit, prefix, sizes, sent, |sizes|)
    ensures ok <==> prefix + 2 <= limit && (forall i :: 0 <= i < |sizes| ==> prefix + sizes[i] + 2 <= limit)
                    && forall k: nat :: k < |sent| ==> delivered(k)
  {
    sent := [];
    assert Sent(limit, prefix, sizes, sent, 0);
    if prefix + 2 > limit { return sent, false; }
    hide Sent, Joined;
    var start, length: nat := 0, 0;
    assert length == Joined(sizes[0..0]) by { JoinedNothing(sizes, 0); }
    for i := 0 to |sizes|
      invariant start <= i && length == Joined(sizes[start..i])
      invariant prefix + length + 2 <= limit
      invariant Sent(limit, prefix, sizes, sent, start)
      invariant forall j :: 0 <= j < i ==> prefix + sizes[j] + 2 <= limit
      invariant forall k: nat :: k < |sent| ==> delivered(k)
    {
      if prefix + sizes[i] + 2 > limit { return sent, false; }
      JoinedStep(sizes, start, i);
      var separator := if i > start then 1 else 0;
      if prefix + length + separator + sizes[i] + 2 > limit {
        SendNext(limit, prefix, sizes, sent, start, i);
        sent := sent + [Batch(start, i)];
        if !delivered(|sent| - 1) { return sent, false; }
        start, length := i, 0;
        JoinedNothing(sizes, i);
        JoinedStep(sizes, i, i);
      }
      length := length + sizes[i] + if i > start then 1 else 0;
    }
    SendNext(limit, prefix, sizes, sent, start, |sizes|);
    sent := sent + [Batch(start, |sizes|)];
    ok := delivered(|sent| - 1);
  }

  lemma JoinedNothing(sizes: seq<nat>, i: nat)
    requires i <= |sizes|
    ensures Joined(sizes[i..i]) == 0
  {
  }
}
