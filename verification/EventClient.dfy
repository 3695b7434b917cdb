/**
 `AWSEventClient.emitEvents`: events are cut into batches of ten, and each batch is sent with a
 budget of attempts. A retry of the failed entries runs inside the `try` of its own request, so
 when it fails the whole batch is sent again.
 */
module EventClient {
  import opened Arithmetic
  import opened Sequences

  type Event = string

  /** One answer of EventBridge: a thrown error, or for each entry by position whether it failed. */
  datatype Response = Thrown | Answered(failed: nat -> bool)

  /** What request number n, carrying these events, is answered with. */
  type Service = (nat, seq<Event>) -> Response

  /** The entries whose failure flag is `flag`, in order. */
  function Select(events: seq<Event>, failed: nat -> bool, flag: bool): (r: seq<Event>)
    ensures |r| <= |events|
  {
    if events == [] then []
    else
      var n := |events| - 1;
      Select(events[..n], failed, flag) + if failed(n) == flag then [events[n]] else []
  }

  lemma {:induction false} SelectSplits(events: seq<Event>, failed: nat -> bool, event: Event)
    ensures Count(Select(events, failed, true), event) + Count(Select(events, failed, false), event) ==
            Count(events, event)
  {
    if events != [] {
      var n := |events| - 1;
      SelectSplits(events[..n], failed, event);
      CountConcat(Select(events[..n], failed, true), if failed(n) then [events[n]] else [], event);
      CountConcat(Select(events[..n], failed, false), if failed(n) then [] else [events[n]], event);
    }
  }

  /** The selected entries are those at the positions with that flag: all of them, in order, and no other. */
  lemma {:induction false} SelectedPositions(events: seq<Event>, failed: nat -> bool, flag: bool)
    returns (positions: seq<nat>)
    ensures |positions| == |Select(events, failed, flag)|
    ensures forall j :: 0 <= j < |positions| ==>
              && positions[j] < |events| && failed(positions[j]) == flag
              && Select(events, failed, flag)[j] == events[positions[j]]
    ensures forall i, j :: 0 <= i < j < |positions| ==> positions[i] < positions[j]
    ensures forall i: nat :: i < |events| && failed(i) == flag ==> i in positions
  {
    if events == [] {
      positions := [];
    } else {
      var n := |events| - 1;
      positions := SelectedPositions(events[..n], failed, flag);
      positions := positions + if failed(n) == flag then [n] else [];
    }
  }

  lemma {:induction false} SelectIsPart(events: seq<Event>, failed: nat -> bool, flag: bool)
    ensures IsPartOf(Select(events, failed, flag), events)
  {
    if events != [] {
      SelectIsPart(events[..|events| - 1], failed, flag);
    }
  }

  predicate IsPartOf(part: seq<Event>, events: seq<Event>) {
    forall event :: event in part ==> event in events
  }

  /** How an emission ends, the number of the next request, and all acknowledgements so far. */
  datatype Emission = Emission(ok: bool, next: nat, acknowledged: seq<Event>)

  /** One batch, starting at request n with the acknowledgements `acked`. */
  ghost function Emit(events: seq<Event>, attempts: nat, n: nat, acked: seq<Event>, service: Service): Emission
    decreases attempts
  {
    if events == [] then Emission(true, n, acked)
    else if attempts == 0 then Emission(false, n, acked)
    else match service(n, events)
      case Thrown => Emit(events, attempts - 1, n + 1, acked, service)
      case Answered(flags) =>
        var failed, acked' := Select(events, flags, true), acked + Select(events, flags, false);
        if failed == [] then Emission(true, n + 1, acked')
        else
          var inner := Emit(failed, attempts - 1, n + 1, acked', service);
          if inner.ok then inner
          else Emit(events, attempts - 1, inner.next, inner.acknowledged, service)
  }

  class EventBridge {
    const service: Service
    var requests: nat
    var acknowledged: seq<Event>
    /** What each request carried. */
    ghost var sent: seq<seq<Event>>

    constructor (service: Service)
      ensures this.service == service && requests == 0 && acknowledged == [] && sent == []
    {
      this.service := service;
      requests, acknowledged, sent := 0, [], [];
    }

    method PutEvents(events: seq<Event>) returns (response: Response)
      modifies this
      ensures response == service(old(requests), events) && requests == old(requests) + 1
      ensures sent == old(sent) + [events]
      ensures response.Thrown? ==> acknowledged == old(acknowledged)
      ensures response.Answered? ==>
                acknowledged == old(acknowledged) + Select(events, response.failed, false)
    {
      response := service(requests, events);
      requests, sent := requests + 1, sent + [events];
      if response.Answered? {
        acknowledged := acknowledged + Select(events, response.failed, false);
      }
    }

    /**
     The recursion of `emitEvents` and `retry`; `ok` is false where the source throws. The first request
     carries the whole batch. While attempts remain, one that throws is followed by the same batch, and one
     that answers with failures by exactly its failed entries. No request carries anything else.
     */
    method EmitBatch(events: seq<Event>, remainingAttempts: nat) returns (ok: bool)
      modifies this
      ensures Emission(ok, requests, acknowledged) ==
              Emit(events, remainingAttempts, old(requests), old(acknowledged), service)
      ensures old(sent) <= sent && |sent| - |old(sent)| == requests - old(requests)
      ensures forall j :: |old(sent)| <= j < |sent| ==> IsPartOf(sent[j], events)
      ensures (events == [] || remainingAttempts == 0) ==> sent == old(sent) && ok == (events == [])
      ensures events != [] && remainingAttempts > 0 ==> |sent| > |old(sent)| && sent[|old(sent)|] == events
      ensures events != [] && remainingAttempts > 1 ==>
                match service(old(requests), events)
                case Thrown => |sent| > |old(sent)| + 1 && sent[|old(sent)| + 1] == events
                case Answered(failed) =>
                  if Select(events, failed, true) == [] then |sent| == |old(sent)| + 1 && ok
                  else |sent| > |old(sent)| + 1 && sent[|old(sent)| + 1] == Select(events, failed, true)
      decreases remainingAttempts
    {
      if |events| == 0 {
        return true;
      }
      if remainingAttempts == 0 {
        return false;
      }
      var response := PutEvents(events);
      if response.Answered? {
        var failed := Select(events, response.failed, true);
        if |failed| == 0 {
          return true;
        }
        SelectIsPart(events, response.failed, true);
        ok := EmitBatch(failed, remainingAttempts - 1);
        if ok {
          return;
        }
      }
      ok := EmitBatch(events, remainingAttempts - 1);
    }
  }

  function Pow2(n: nat): (r: nat)
    ensures r >= 1
  {
    if n == 0 then 1 else 2 * Pow2(n - 1)
  }

  /** A batch with a attempts makes at most 2^a - 1 requests, and does not give up before making a. */
  lemma {:induction false} RequestsBounded(
    events: seq<Event>, attempts: nat, n: nat, acked: seq<Event>, service: Service)
    ensures var e := Emit(events, attempts, n, acked, service);
            n <= e.next <= n + Pow2(attempts) - 1 && (!e.ok ==> e.next >= n + attempts)
    decreases attempts
  {
    if events != [] && attempts > 0 {
      match service(n, events)
      case Thrown => RequestsBounded(events, attempts - 1, n + 1, acked, service);
      case Answered(flags) =>
        var failed, acked' := Select(events, flags, true), acked + Select(events, flags, false);
        RequestsBounded(failed, attempts - 1, n + 1, acked', service);
        var inner := Emit(failed, attempts - 1, n + 1, acked', service);
        RequestsBounded(events, attempts - 1, inner.next, inner.acknowledged, service);
    }
  }

  function Refuse(n: nat, events: seq<Event>): Response {
    Answered(_ => true)
  }

  lemma {:induction false} SelectAll(events: seq<Event>)
    ensures Select(events, _ => true, true) == events
  {
    if events != [] {
      SelectAll(events[..|events| - 1]);
    }
  }

  /** The exponential bound is met: a service that refuses every entry is asked exactly 2^a - 1 times. */
  lemma {:induction false} RequestsBoundIsMet(events: seq<Event>, attempts: nat, n: nat, acked: seq<Event>)
    requires events != []
    ensures var e := Emit(events, attempts, n, acked, Refuse);
            e.next == n + Pow2(attempts) - 1 && !e.ok
    decreases attempts
  {
    if attempts > 0 {
      SelectAll(events);
      var acked' := acked + Select(events, _ => true, false);
      RequestsBoundIsMet(events, attempts - 1, n + 1, acked');
      var inner := Emit(events, attempts - 1, n + 1, acked', Refuse);
      RequestsBoundIsMet(events, attempts - 1, inner.next, inner.acknowledged);
    }
  }

  lemma {:induction false} AcknowledgementsGrow(
    events: seq<Event>, attempts: nat, n: nat, acked: seq<Event>, service: Service, event: Event)
    ensures Count(acked, event) <= Count(Emit(events, attempts, n, acked, service).acknowledged, event)
    decreases attempts
  {
    if events != [] && attempts > 0 {
      match service(n, events)
      case Thrown =>
        AcknowledgementsGrow(events, attempts - 1, n + 1, acked, service, event);
      case Answered(flags) =>
        var failed, acked' := Select(events, flags, true), acked + Select(events, flags, false);
        CountConcat(acked, Select(events, flags, false), event);
        AcknowledgementsGrow(failed, attempts - 1, n + 1, acked', service, event);
        var inner := Emit(failed, attempts - 1, n + 1, acked', service);
        AcknowledgementsGrow(events, attempts - 1, inner.next, inner.acknowledged, service, event);
    }
  }

  /** A batch that returns normally has had every event acknowledged, as often as it occurs. */
  lemma {:induction false} NormalReturnAcknowledgesAll(
    events: seq<Event>, attempts: nat, n: nat, acked: seq<Event>, service: Service, event: Event)
    requires Emit(events, attempts, n, acked, service).ok
    ensures Count(acked, event) + Count(events, event) <=
            Count(Emit(events, attempts, n, acked, service).acknowledged, event)
    decreases attempts
  {
    if events != [] {
      match service(n, events)
      case Thrown =>
        NormalReturnAcknowledgesAll(events, attempts - 1, n + 1, acked, service, event);
      case Answered(flags) =>
        var failed, acked' := Select(events, flags, true), acked + Select(events, flags, false);
        CountConcat(acked, Select(events, flags, false), event);
        SelectSplits(events, flags, event);
        var inner := Emit(failed, attempts - 1, n + 1, acked', service);
        if failed != [] && inner.ok {
          NormalReturnAcknowledgesAll(failed, attempts - 1, n + 1, acked', service, event);
        } else if failed != [] {
          AcknowledgementsGrow(failed, attempts - 1, n + 1, acked', service, event);
          NormalReturnAcknowledgesAll(events, attempts - 1, inner.next, inner.acknowledged, service, event);
        }
    }
  }

  // ---------------------------------------------------------------- batches

  /** `chunkArray`, whose `reduceRight` fills chunks from the end. */
  function Chunks<T>(batchSize: nat, items: seq<T>): (chunks: seq<seq<T>>)
    ensures chunks == [] <==> items == []
  {
    if items == [] then []
    else
      var rest := Chunks(batchSize, items[1..]);
      if rest == [] then [[items[0]]]
      else if |rest[0]| < batchSize then [[items[0]] + rest[0]] + rest[1..]
      else [[items[0]]] + rest
  }

  lemma {:induction false} ChunksFull<T>(batchSize: nat, items: seq<T>)
    requires batchSize >= 1 && items != []
    ensures var chunks := Chunks(batchSize, items);
            && 1 <= |chunks[0]| <= batchSize
            && (forall i :: 1 <= i < |chunks| ==> |chunks[i]| == batchSize)
            && |items| == |chunks[0]| + (|chunks| - 1) * batchSize
  {
    var rest := Chunks(batchSize, items[1..]);
    if rest != [] {
      ChunksFull(batchSize, items[1..]);
      if |rest[0]| == batchSize {
        assert |rest| * batchSize == (|rest| - 1) * batchSize + batchSize;
      }
    }
  }

  lemma {:induction false} ChunksConcatenate<T>(batchSize: nat, items: seq<T>)
    ensures Concat(Chunks(batchSize, items)) == items
  {
    if items != [] {
      ChunksConcatenate(batchSize, items[1..]);
      var rest, chunks := Chunks(batchSize, items[1..]), Chunks(batchSize, items);
      assert items == [items[0]] + items[1..];
      if rest == [] {
        assert chunks[1..] == [];
      } else {
        assert chunks[1..] == if |rest[0]| < batchSize then rest[1..] else rest;
      }
    }
  }

  /**
   Cutting n items gives ceil(n / batchSize) batches of 1 to batchSize items whose concatenation is
   the input; only the first may be short.
   */
  lemma ChunksPartition<T>(batchSize: nat, items: seq<T>)
    requires batchSize >= 1
    ensures var chunks := Chunks(batchSize, items);
            && Concat(chunks) == items
            && |chunks| == (|items| + batchSize - 1) / batchSize
            && (forall i :: 0 <= i < |chunks| ==> 1 <= |chunks[i]| <= batchSize)
            && (forall i :: 1 <= i < |chunks| ==> |chunks[i]| == batchSize)
  {
    if items == [] {
      DivideSmall(batchSize - 1, batchSize);
    } else {
      ChunksFull(batchSize, items);
      ChunksConcatenate(batchSize, items);
      var chunks := Chunks(batchSize, items);
      assert batchSize * |chunks| == (|chunks| - 1) * batchSize + batchSize;
      DivideUnique(|items| + batchSize - 1, batchSize, |chunks|, |chunks[0]| - 1);
    }
  }

  const BATCH_SIZE := 10
  const ATTEMPTS := 3

  /** All batches together: each runs to its own end, and the whole succeeds if every batch does. */
  ghost function EmitBatches(batches: seq<seq<Event>>, services: seq<Service>): (e: Emission)
    requires |services| == |batches|
  {
    if batches == [] then Emission(true, 0, [])
    else
      var first := Emit(batches[0], ATTEMPTS, 0, [], services[0]);
      var rest := EmitBatches(batches[1..], services[1..]);
      Emission(first.ok && rest.ok, first.next + rest.next, first.acknowledged + rest.acknowledged)
  }

  lemma {:induction false} BatchesAcknowledge(batches: seq<seq<Event>>, services: seq<Service>, event: Event)
    requires |services| == |batches|
    ensures var e := EmitBatches(batches, services);
            e.next <= 7 * |batches| && (e.ok ==> Count(Concat(batches), event) <= Count(e.acknowledged, event))
  {
    if batches != [] {
      BatchesAcknowledge(batches[1..], services[1..], event);
      RequestsBounded(batches[0], ATTEMPTS, 0, [], services[0]);
      if Emit(batches[0], ATTEMPTS, 0, [], services[0]).ok {
        NormalReturnAcknowledgesAll(batches[0], ATTEMPTS, 0, [], services[0], event);
      }
      CountConcat(batches[0], Concat(batches[1..]), event);
      CountConcat(Emit(batches[0], ATTEMPTS, 0, [], services[0]).acknowledged,
                  EmitBatches(batches[1..], services[1..]).acknowledged, event);
      assert Pow2(ATTEMPTS) == 8;
    }
  }

  /**
   `emitEvents` on n valid events makes at most 7 * ceil(n / 10) requests, whatever the service
   does, and if it resolves every event has been acknowledged.
   */
  lemma EmitEventsAcknowledges(events: seq<Event>, services: seq<Service>, event: Event)
    requires |services| == |Chunks(BATCH_SIZE, events)|
    ensures var e := EmitBatches(Chunks(BATCH_SIZE, events), services);
            e.next <= 7 * ((|events| + 9) / 10) && (e.ok ==> Count(events, event) <= Count(e.acknowledged, event))
  {
    ChunksPartition(BATCH_SIZE, events);
    BatchesAcknowledge(Chunks(BATCH_SIZE, events), services, event);
  }
}
