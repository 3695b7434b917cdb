/**
 Grouping items by key, and handling the groups side by side but each group in order: after the first
 failure in a group, the rest of that group fails with it.
 */
module GroupedItems {
  // ---------------------------------------------------------------- grouping

  /** The items with that key, in input order. */
  function Members<I>(items: seq<I>, group: I -> string, key: string): seq<I> {
    if items == [] then []
    else
      var n := |items| - 1;
      Members(items[..n], group, key) + if group(items[n]) == key then [items[n]] else []
  }

  /** How many items before position p share its key: where item p stands in its group. */
  function PlaceOf<I>(items: seq<I>, group: I -> string, p: nat): nat
    requires p < |items|
  {
    |Members(items[..p], group, group(items[p]))|
  }

  predicate HasKey<I>(items: seq<I>, group: I -> string, key: string) {
    exists p :: 0 <= p < |items| && group(items[p]) == key
  }

  /** The accumulator of `groupBy`, and of the first loop of `groupedPromiseAllSettled`. */
  ghost predicate IsGrouping<I(!new)>(items: seq<I>, group: I -> string, groups: map<string, seq<I>>) {
    && (forall key :: key in groups <==> HasKey(items, group, key))
    && (forall key :: key in groups ==> groups[key] == Members(items, group, key))
  }

  function Push<I>(groups: map<string, seq<I>>, key: string, item: I): map<string, seq<I>> {
    groups[key := (if key in groups then groups[key] else []) + [item]]
  }

  function GroupBy<I>(items: seq<I>, group: I -> string): map<string, seq<I>> {
    if items == [] then map[]
    else Push(GroupBy(items[..|items| - 1], group), group(items[|items| - 1]), items[|items| - 1])
  }

  lemma {:induction false} NoMembersWithoutKey<I>(items: seq<I>, group: I -> string, key: string)
    ensures HasKey(items, group, key) <==> Members(items, group, key) != []
  {
    if items != [] {
      var n := |items| - 1;
      NoMembersWithoutKey(items[..n], group, key);
      if HasKey(items[..n], group, key) {
        var p :| 0 <= p < n && group(items[..n][p]) == key;
        assert group(items[p]) == key;
      }
      if HasKey(items, group, key) && group(items[n]) != key {
        var p :| 0 <= p < |items| && group(items[p]) == key;
        assert group(items[..n][p]) == key;
      }
    }
  }

  lemma PushKeepsGrouping<I(!new)>(items: seq<I>, group: I -> string, groups: map<string, seq<I>>, item: I)
    requires IsGrouping(items, group, groups)
    ensures IsGrouping(items + [item], group, Push(groups, group(item), item))
  {
    var longer := items + [item];
    assert longer[..|items|] == items;
    forall key ensures HasKey(longer, group, key) <==> HasKey(items, group, key) || key == group(item) {
      NoMembersWithoutKey(items, group, key);
      NoMembersWithoutKey(longer, group, key);
    }
    NoMembersWithoutKey(items, group, group(item));
  }

  lemma {:induction false} GroupByGroups<I(!new)>(items: seq<I>, group: I -> string)
    ensures IsGrouping(items, group, GroupBy(items, group))
  {
    if items != [] {
      var n := |items| - 1;
      GroupByGroups(items[..n], group);
      PushKeepsGrouping(items[..n], group, GroupBy(items[..n], group), items[n]);
      assert items[..n] + [items[n]] == items;
    }
  }

  /** The first loop of `groupedPromiseAllSettled`. */
  method CollectGroups<I(!new)>(items: seq<I>, group: I -> string) returns (itemsByKey: map<string, seq<I>>)
    ensures IsGrouping(items, group, itemsByKey)
  {
    itemsByKey := map[];
    for i := 0 to |items|
      invariant IsGrouping(items[..i], group, itemsByKey)
    {
      PushKeepsGrouping(items[..i], group, itemsByKey, items[i]);
      assert items[..i] + [items[i]] == items[..i + 1];
      var key := group(items[i]);
      if key !in itemsByKey {
        itemsByKey := itemsByKey[key := []];
      }
      itemsByKey := itemsByKey[key := itemsByKey[key] + [items[i]]];
    }
    assert items[..|items|] == items;
  }

  /** Item p is member number `PlaceOf(p)` of its group. */
  lemma {:induction false} MemberAtPlace<I>(items: seq<I>, group: I -> string, p: nat)
    requires p < |items|
    ensures var members := Members(items, group, group(items[p]));
            PlaceOf(items, group, p) < |members| && members[PlaceOf(items, group, p)] == items[p]
  {
    var n := |items| - 1;
    if p < n {
      MemberAtPlace(items[..n], group, p);
      assert items[..n][..p] == items[..p];
    }
  }

  /** Places are given in input order, each to one item. */
  lemma {:induction false} PlacesGrow<I>(items: seq<I>, group: I -> string, p: nat, q: nat)
    requires p < q < |items| && group(items[p]) == group(items[q])
    ensures PlaceOf(items, group, p) < PlaceOf(items, group, q)
  {
    MemberAtPlace(items[..q], group, p);
    assert items[..q][..p] == items[..p];
  }

  /** Every member is some item. */
  lemma {:induction false} EveryPlaceIsTaken<I>(items: seq<I>, group: I -> string, key: string, place: nat) returns (p: nat)
    requires place < |Members(items, group, key)|
    ensures p < |items| && group(items[p]) == key && PlaceOf(items, group, p) == place
  {
    var n := |items| - 1;
    if place < |Members(items[..n], group, key)| {
      p := EveryPlaceIsTaken(items[..n], group, key, place);
      assert items[..n][..p] == items[..p];
    } else {
      p := n;
    }
  }

  // ---------------------------------------------------------------- one group

  datatype Outcome<R> = Returned(value: R) | Threw(error: string)

  datatype Reason = Error(error: string) | CascadingFailure

  datatype Result<I, R> = Result(fulfilled: seq<(I, R)>, rejected: seq<(I, Reason)>)

  /**
   Where a group stands when the handler has had these outcomes: the fulfilled items are a prefix,
   and after a failure the rejected items are all the rest.
   */
  ghost predicate Settled<I, R>(items: seq<I>, outcomes: seq<Outcome<R>>, r: Result<I, R>) {
    var m := |outcomes|;
    && m <= |items|
    && (forall i :: 0 <= i < m - 1 ==> outcomes[i].Returned?)
    && |r.fulfilled| == (if m > 0 && outcomes[m - 1].Threw? then m - 1 else m)
    && (forall i :: 0 <= i < |r.fulfilled| ==> r.fulfilled[i] == (items[i], outcomes[i].value))
    && |r.rejected| == (if m > 0 && outcomes[m - 1].Threw? then |items| - m + 1 else 0)
    && (forall j :: 0 <= j < |r.rejected| ==>
          r.rejected[j] == (items[m - 1 + j], if j == 0 then Error(outcomes[m - 1].error) else CascadingFailure))
  }

  predicate Finished<I, R>(items: seq<I>, r: Result<I, R>) {
    r.rejected != [] || |r.fulfilled| == |items|
  }

  function Cascade<I>(items: seq<I>): seq<(I, Reason)> {
    seq(|items|, i requires 0 <= i < |items| => (items[i], CascadingFailure))
  }

  /** What happens to a group when the handler is done with its next item. */
  function Advance<I, R>(items: seq<I>, r: Result<I, R>, outcome: Outcome<R>): Result<I, R>
    requires |r.fulfilled| < |items|
  {
    var item := items[|r.fulfilled|];
    match outcome
    case Returned(value) => r.(fulfilled := r.fulfilled + [(item, value)])
    case Threw(error) => r.(rejected := [(item, Error(error))] + Cascade(items[|r.fulfilled| + 1..]))
  }

  lemma AdvanceSettles<I, R>(items: seq<I>, outcomes: seq<Outcome<R>>, r: Result<I, R>, outcome: Outcome<R>)
    requires Settled(items, outcomes, r) && !Finished(items, r)
    ensures Settled(items, outcomes + [outcome], Advance(items, r, outcome))
  {
  }

  /** A finished group has put each member in one list, at its own place. */
  lemma FinishedGroupCovers<I, R>(items: seq<I>, outcomes: seq<Outcome<R>>, r: Result<I, R>, place: nat)
    requires Settled(items, outcomes, r) && Finished(items, r) && place < |items|
    ensures |r.fulfilled| + |r.rejected| == |items|
    ensures if place < |r.fulfilled| then r.fulfilled[place].0 == items[place]
            else place - |r.fulfilled| < |r.rejected| && r.rejected[place - |r.fulfilled|].0 == items[place]
  {
  }

  /** What an entity stream's handler did: returning false counts as a failure. */
  datatype Reply = False | Other(value: string)

  function StreamOutcome(raw: Outcome<Reply>): Outcome<Reply> {
    if raw == Returned(False) then Threw("Handler failed") else raw
  }

  class StreamHandler<I> {
    /** Every call of the user's handler, with what it did. */
    var calls: seq<(I, Outcome<Reply>)>

    constructor ()
      ensures calls == []
    {
      calls := [];
    }

    method Handle(item: I) returns (outcome: Outcome<Reply>)
      modifies this
      ensures |calls| == |old(calls)| + 1 && calls[..|old(calls)|] == old(calls)
      ensures calls[|old(calls)|].0 == item && outcome == StreamOutcome(calls[|old(calls)|].1)
      ensures var raw := calls[|old(calls)|].1;
              && (outcome.Threw? <==> raw.Threw? || raw == Returned(False))
              && (outcome.Returned? || raw.Threw? ==> outcome == raw)
              && (raw == Returned(False) ==> outcome == Threw("Handler failed"))
    {
      var raw: Outcome<Reply> := *;
      calls := calls + [(item, raw)];
      outcome := StreamOutcome(raw);
    }

    /**
     The loop over one group: the handler sees its items in order, and none after the first call that threw
     or returned false; there is such a call exactly if some item is rejected.
     */
    method HandleGroup(items: seq<I>) returns (r: Result<I, Reply>, ghost outcomes: seq<Outcome<Reply>>)
      modifies this
      ensures |calls| == |old(calls)| + |outcomes| && calls[..|old(calls)|] == old(calls)
      ensures Settled(items, outcomes, r) && Finished(items, r)
      ensures forall i :: 0 <= i < |outcomes| ==>
                calls[|old(calls)| + i].0 == items[i] && outcomes[i] == StreamOutcome(calls[|old(calls)| + i].1)
      ensures forall i :: |old(calls)| <= i < |calls| - 1 ==> calls[i].1.Returned? && calls[i].1 != Returned(False)
      ensures r.rejected != [] <==>
                |calls| > |old(calls)| && (calls[|calls| - 1].1.Threw? || calls[|calls| - 1].1 == Returned(False))
    {
      r, outcomes := Result([], []), [];
      for i := 0 to |items|
        invariant |outcomes| == i == |r.fulfilled| && r.rejected == [] && Settled(items, outcomes, r)
        invariant |calls| == |old(calls)| + i && calls[..|old(calls)|] == old(calls)
        invariant forall k :: |old(calls)| <= k < |calls| ==> calls[k].1.Returned? && calls[k].1 != Returned(False)
        invariant forall k :: 0 <= k < i ==>
                    calls[|old(calls)| + k].0 == items[k] && outcomes[k] == StreamOutcome(calls[|old(calls)| + k].1)
      {
        var outcome := Handle(items[i]);
        AdvanceSettles(items, outcomes, r, outcome);
        r, outcomes := Advance(items, r, outcome), outcomes + [outcome];
        if outcome.Threw? {
          return;
        }
      }
    }
  }

  // ---------------------------------------------------------------- all groups, interleaved

  datatype Step<R> = Step(key: string, outcome: Outcome<R>)

  datatype State<I, R> = State(results: map<string, Result<I, R>>, calls: seq<Step<R>>)

  function Begin<I, R>(groups: map<string, seq<I>>): State<I, R> {
    State(map key | key in groups :: Result([], []), [])
  }

  /** The handler is done with the next item of an unfinished group. */
  predicate Enabled<I, R>(groups: map<string, seq<I>>, s: State<I, R>, key: string) {
    key in groups && key in s.results && s.results[key].rejected == [] && |s.results[key].fulfilled| < |groups[key]|
  }

  function Next<I, R>(groups: map<string, seq<I>>, s: State<I, R>, step: Step<R>): State<I, R> {
    if !Enabled(groups, s, step.key) then s
    else State(s.results[step.key := Advance(groups[step.key], s.results[step.key], step.outcome)], s.calls + [step])
  }

  function Run<I, R>(groups: map<string, seq<I>>, steps: seq<Step<R>>): State<I, R> {
    if steps == [] then Begin(groups) else Next(groups, Run(groups, steps[..|steps| - 1]), steps[|steps| - 1])
  }

  /** The outcomes of the calls for one group, in order. */
  function OutcomesOf<R>(calls: seq<Step<R>>, key: string): seq<Outcome<R>> {
    if calls == [] then []
    else
      var n := |calls| - 1;
      OutcomesOf(calls[..n], key) + if calls[n].key == key then [calls[n].outcome] else []
  }

  ghost predicate AllSettled<I(!new), R(!new)>(groups: map<string, seq<I>>, s: State<I, R>) {
    && s.results.Keys == groups.Keys
    && forall key :: key in groups ==> Settled(groups[key], OutcomesOf(s.calls, key), s.results[key])
  }

  lemma StepSettles<I(!new), R(!new)>(groups: map<string, seq<I>>, s: State<I, R>, step: Step<R>, key: string)
    requires AllSettled(groups, s) && key in groups
    ensures Settled(groups[key], OutcomesOf(Next(groups, s, step).calls, key), Next(groups, s, step).results[key])
  {
    if Enabled(groups, s, step.key) {
      assert (s.calls + [step])[..|s.calls|] == s.calls;
      if step.key == key {
        AdvanceSettles(groups[key], OutcomesOf(s.calls, key), s.results[key], step.outcome);
      } else {
        assert OutcomesOf(s.calls + [step], key) == OutcomesOf(s.calls, key);
      }
    }
  }

  /** However the groups interleave, each one stands where its own calls in sequence would have put it. */
  lemma {:induction false} InterleavingDoesNotMatter<I(!new), R(!new)>(groups: map<string, seq<I>>, steps: seq<Step<R>>)
    ensures AllSettled(groups, Run(groups, steps))
  {
    if steps != [] {
      var earlier, step := steps[..|steps| - 1], steps[|steps| - 1];
      InterleavingDoesNotMatter(groups, earlier);
      forall key | key in groups
        ensures Settled(groups[key], OutcomesOf(Run(groups, steps).calls, key), Run<I, R>(groups, steps).results[key])
      {
        StepSettles(groups, Run(groups, earlier), step, key);
      }
    }
  }

  /** No group can go on. */
  ghost predicate Done<I, R>(groups: map<string, seq<I>>, s: State<I, R>) {
    forall key :: key in groups ==> !Enabled(groups, s, key)
  }

  /**
   In the end every input item is in exactly one of fulfilled and rejected, at its place in its
   group: fulfilled if it comes before the group's first failure, rejected from there on.
   */
  lemma EveryItemSettlesOnce<I(!new), R(!new)>(items: seq<I>, group: I -> string, steps: seq<Step<R>>, p: nat)
    requires p < |items| && Done(GroupBy(items, group), Run(GroupBy(items, group), steps))
    ensures var s := Run(GroupBy(items, group), steps);
            group(items[p]) in s.results && SettledAt(items, group, s.results[group(items[p])], p)
  {
    var groups, key := GroupBy(items, group), group(items[p]);
    GroupByGroups(items, group);
    InterleavingDoesNotMatter(groups, steps);
    assert HasKey(items, group, key);
    ItemSettledInGroup(items, group, groups, Run<I, R>(groups, steps), p);
  }

  /** Item p is at its own place in one of the two lists, which together hold all of its group. */
  ghost predicate SettledAt<I, R>(items: seq<I>, group: I -> string, r: Result<I, R>, p: nat)
    requires p < |items|
  {
    var place := PlaceOf(items, group, p);
    && |r.fulfilled| + |r.rejected| == |Members(items, group, group(items[p]))|
    && (if place < |r.fulfilled| then r.fulfilled[place].0 == items[p]
        else place - |r.fulfilled| < |r.rejected| && r.rejected[place - |r.fulfilled|].0 == items[p])
  }

  lemma ItemSettledInGroup<I(!new), R(!new)>(
    items: seq<I>, group: I -> string, groups: map<string, seq<I>>, s: State<I, R>, p: nat)
    requires p < |items| && group(items[p]) in groups
    requires groups[group(items[p])] == Members(items, group, group(items[p]))
    requires AllSettled(groups, s) && Done(groups, s)
    ensures group(items[p]) in s.results && SettledAt(items, group, s.results[group(items[p])], p)
  {
    var key := group(items[p]);
    MemberAtPlace(items, group, p);
    assert !Enabled(groups, s, key);
    FinishedGroupCovers(groups[key], OutcomesOf(s.calls, key), s.results[key], PlaceOf(items, group, p));
  }

  // ---------------------------------------------------------------- failed items of an entity stream

  datatype StreamItem = StreamItem(id: string, key: string)

  function IdsOf<R>(rejected: seq<(StreamItem, R)>): seq<string> {
    seq(|rejected|, i requires 0 <= i < |rejected| => rejected[i].0.id)
  }

  /** `failedItemIds`, with the groups listed in any order. */
  function FailedItemIds<R>(order: seq<string>, results: map<string, Result<StreamItem, R>>): seq<string>
    requires forall k :: 0 <= k < |order| ==> order[k] in results
  {
    if order == [] then []
    else
      var n := |order| - 1;
      FailedItemIds(order[..n], results) + IdsOf(results[order[n]].rejected)
  }

  lemma {:induction false} FailedIdIsRejected<R>(order: seq<string>, results: map<string, Result<StreamItem, R>>, id: string)
    requires forall k :: 0 <= k < |order| ==> order[k] in results
    ensures id in FailedItemIds(order, results) <==>
              exists k, j :: 0 <= k < |order| && 0 <= j < |results[order[k]].rejected|
                             && results[order[k]].rejected[j].0.id == id
  {
    if order != [] {
      var n := |order| - 1;
      FailedIdIsRejected(order[..n], results, id);
      var last := results[order[n]].rejected;
      assert id in IdsOf(last) <==> exists j :: 0 <= j < |last| && last[j].0.id == id by {
        if j :| 0 <= j < |last| && last[j].0.id == id { assert IdsOf(last)[j] == id; }
      }
      if k, j :| 0 <= k < n && 0 <= j < |results[order[..n][k]].rejected| && results[order[..n][k]].rejected[j].0.id == id {
        assert results[order[k]].rejected[j].0.id == id;
      }
      if k, j :| 0 <= k < n && 0 <= j < |results[order[k]].rejected| && results[order[k]].rejected[j].0.id == id {
        assert results[order[..n][k]].rejected[j].0.id == id;
      }
    }
  }

  predicate IsFailed<R>(items: seq<StreamItem>, results: map<string, Result<StreamItem, R>>, p: nat) {
    && p < |items| && items[p].key in results
    && PlaceOf(items, (item: StreamItem) => item.key, p) >= |results[items[p].key].fulfilled|
  }

  /** The ids reported are those of the items from the first failure of their key on: a suffix of each key's items. */
  lemma FailedIdsAreSuffixes<R(!new)>(
    items: seq<StreamItem>, steps: seq<Step<R>>, order: seq<string>, results: map<string, Result<StreamItem, R>>, id: string)
    requires var groups := GroupBy(items, (item: StreamItem) => item.key);
             Done(groups, Run(groups, steps)) && results == Run(groups, steps).results
    requires forall key :: key in results <==> key in order
    ensures id in FailedItemIds(order, results) <==> exists p: nat :: IsFailed(items, results, p) && items[p].id == id
  {
    var group := (item: StreamItem) => item.key;
    FailedIdIsRejected(order, results, id);
    if k, j :| 0 <= k < |order| && 0 <= j < |results[order[k]].rejected| && results[order[k]].rejected[j].0.id == id {
      var p := RejectedItem(items, group, steps, order[k], j);
      assert IsFailed(items, results, p);
    }
    if p: nat :| IsFailed(items, results, p) && items[p].id == id {
      EveryItemSettlesOnce(items, group, steps, p);
      var r, place := results[items[p].key], PlaceOf(items, group, p);
      assert r.rejected[place - |r.fulfilled|].0.id == id;
    }
  }

  /** Every rejected item is an item at a place past the fulfilled ones. */
  lemma RejectedItem<I(!new), R(!new)>(items: seq<I>, group: I -> string, steps: seq<Step<R>>, key: string, j: nat)
    returns (p: nat)
    requires var s := Run(GroupBy(items, group), steps);
             key in s.results && j < |s.results[key].rejected|
    ensures var r := Run(GroupBy(items, group), steps).results[key];
            && p < |items| && group(items[p]) == key
            && PlaceOf(items, group, p) == |r.fulfilled| + j && r.rejected[j].0 == items[p]
  {
    GroupByGroups(items, group);
    InterleavingDoesNotMatter(GroupBy(items, group), steps);
    var r: Result<I, R> := Run(GroupBy(items, group), steps).results[key];
    p := EveryPlaceIsTaken(items, group, key, |r.fulfilled| + j);
    MemberAtPlace(items, group, p);
  }
}
