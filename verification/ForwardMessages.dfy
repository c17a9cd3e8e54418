/** Forwarding a draft (apiwrap.cpp). One request forwards messages of one
    source chat only, so the draft is cut into runs of equal source; a shared
    counter decides when the caller hears that everything was forwarded. */
module ForwardMessages {

  /** A message of the draft: the chat it comes from and its id there. */
  datatype Item = Item(source: int, id: int)

  /** A message of the draft with the random id drawn for it. */
  datatype Sending = Sending(item: Item, randomId: int)

  /** What one request carries: one source and two parallel lists. */
  datatype Batch = Batch(source: int, ids: seq<int>, randomIds: seq<int>)
  {
    predicate Aligned()
    {
      |ids| == |randomIds|
    }

    function Sendings(): seq<Sending>
      requires Aligned()
    {
      seq(|ids|, i requires 0 <= i < |ids| => Sending(Item(source, ids[i]), randomIds[i]))
    }
  }

  /** A request and the local messages to mark as failed with it. */
  datatype Request = Request(batch: Batch, localIds: map<int, int>)

  // ----- runs

  ghost predicate AllAligned(batches: seq<Batch>)
  {
    forall i :: 0 <= i < |batches| ==> batches[i].Aligned()
  }

  ghost function Joined(batches: seq<Batch>): seq<Sending>
    requires AllAligned(batches)
  {
    if batches == [] then [] else Joined(batches[..|batches| - 1]) + batches[|batches| - 1].Sendings()
  }

  /** The batches are the maximal runs of the draft: none is empty, neighbours differ in source. */
  ghost predicate Runs(batches: seq<Batch>, draft: seq<Sending>)
  {
    && AllAligned(batches)
    && (forall i :: 0 <= i < |batches| ==> batches[i].ids != [])
    && (forall i :: 0 < i < |batches| ==> batches[i - 1].source != batches[i].source)
    && Joined(batches) == draft
  }

  lemma JoinedAdds(batches: seq<Batch>, b: Batch)
    requires AllAligned(batches) && b.Aligned()
    ensures AllAligned(batches + [b])
    ensures Joined(batches + [b]) == Joined(batches) + b.Sendings()
  {
    assert (batches + [b])[..|batches|] == batches;
  }

  /** Dropping the last run leaves the runs of a shorter draft, which ends in another source. */
  lemma LastRun(batches: seq<Batch>, draft: seq<Sending>)
    requires Runs(batches, draft) && batches != []
    ensures
      var b, rest := batches[|batches| - 1], |draft| - |batches[|batches| - 1].ids|;
      && 0 <= rest < |draft|
      && draft[rest..] == b.Sendings()
      && Runs(batches[..|batches| - 1], draft[..rest])
      && (rest > 0 ==> draft[rest - 1].item.source != b.source)
  {
    var n := |batches| - 1;
    var init := batches[..n];
    var b := batches[n];
    assert draft == Joined(init) + b.Sendings();
    assert draft[..|Joined(init)|] == Joined(init);
    if n > 0 {
      assert Joined(init) == Joined(init[..n - 1]) + init[n - 1].Sendings();
      assert init[n - 1] == batches[n - 1];
    }
  }

  lemma OneSource(b: Batch, draft: seq<Sending>, rest: nat)
    requires b.Aligned() && rest <= |draft| && draft[rest..] == b.Sendings()
    ensures forall k :: rest <= k < |draft| ==> draft[k].item.source == b.source
  {
    forall k | rest <= k < |draft| ensures draft[k].item.source == b.source {
      assert draft[k] == draft[rest..][k - rest];
    }
  }

  lemma SendingsInjective(b: Batch, c: Batch)
    requires b.Aligned() && c.Aligned() && b.ids != []
    requires b.Sendings() == c.Sendings()
    ensures b == c
  {
    assert |b.ids| == |b.Sendings()| == |c.ids|;
    assert b.Sendings()[0].item.source == c.Sendings()[0].item.source;
    forall i | 0 <= i < |b.ids| ensures b.ids[i] == c.ids[i] && b.randomIds[i] == c.randomIds[i] {
      assert b.Sendings()[i] == c.Sendings()[i];
    }
  }

  /** A draft has only one division into maximal runs, so `Runs` fixes every request. */
  lemma {:induction false} RunsUnique(bs: seq<Batch>, cs: seq<Batch>, draft: seq<Sending>)
    requires Runs(bs, draft) && Runs(cs, draft)
    ensures bs == cs
    decreases |draft|
  {
    if bs != [] { LastRun(bs, draft); }
    if cs != [] { LastRun(cs, draft); }
    if bs != [] && cs != [] {
      var b, c := bs[|bs| - 1], cs[|cs| - 1];
      assert bs == bs[..|bs| - 1] + [b];
      assert cs == cs[..|cs| - 1] + [c];
      var x, y := |draft| - |b.ids|, |draft| - |c.ids|;
      OneSource(b, draft, x);
      OneSource(c, draft, y);
      assert draft[|draft| - 1].item.source == b.source == c.source;
      SendingsInjective(b, c);
      RunsUnique(bs[..|bs| - 1], cs[..|cs| - 1], draft[..x]);
    }
  }

  // ----- the shared callback

  /** One forwarding under way. Requests are numbered in the order they were
      accumulated. `calls` counts runs of the success callback. */
  datatype State = State(
    wanted: bool,
    waiting: set<nat>,
    succeeded: set<nat>,
    failed: set<nat>,
    requestsLeft: int,
    calls: nat)

  datatype Event = Done(request: nat) | Fail(request: nat)

  function Numbers(n: nat): (r: set<nat>)
    ensures forall k: nat :: k in r <==> k < n
    ensures |r| == n
  {
    if n == 0 then {} else Numbers(n - 1) + {n - 1}
  }

  /** The state once all of the draft is sent and before any reply. */
  function Sent(wanted: bool, n: nat): State
  {
    State(wanted, Numbers(n), {}, {}, if wanted then n else 0, 0)
  }

  function Next(s: State, e: Event): State
    requires e.request in s.waiting
  {
    var t := s.(waiting := s.waiting - {e.request});
    match e
    case Done(k) =>
      var left := if s.wanted then s.requestsLeft - 1 else s.requestsLeft;
      t.(succeeded := s.succeeded + {k},
         requestsLeft := left,
         calls := if s.wanted && left == 0 then s.calls + 1 else s.calls)
    case Fail(k) => t.(failed := s.failed + {k})
  }

  ghost predicate Inv(s: State, n: nat)
  {
    && s.waiting !! s.succeeded && s.waiting !! s.failed && s.succeeded !! s.failed
    && s.waiting + s.succeeded + s.failed == Numbers(n)
    && s.requestsLeft == (if s.wanted then |s.waiting| + |s.failed| else 0)
    && (s.calls == if s.wanted && s.succeeded == Numbers(n) then 1 else 0)
  }

  ghost predicate Enabled(s: State, events: seq<Event>)
    decreases |events|
  {
    events == [] || (events[0].request in s.waiting && Enabled(Next(s, events[0]), events[1..]))
  }

  ghost function After(s: State, events: seq<Event>): State
    requires Enabled(s, events)
    decreases |events|
  {
    if events == [] then s else After(Next(s, events[0]), events[1..])
  }

  lemma StepInv(s: State, e: Event, n: nat)
    requires Inv(s, n) && e.request in s.waiting
    ensures Inv(Next(s, e), n)
  {
    var t, k := Next(s, e), e.request;
    Moved(s.waiting, s.succeeded, s.failed, k, Numbers(n));
    AllDone(t.waiting, t.succeeded, t.failed, Numbers(n));
  }

  /** A request leaves the first set for one of the others. */
  lemma Moved(waiting: set<nat>, succeeded: set<nat>, failed: set<nat>, k: nat, all: set<nat>)
    requires k in waiting && waiting !! succeeded && waiting !! failed
    requires waiting + succeeded + failed == all
    ensures succeeded != all
    ensures |waiting - {k}| == |waiting| - 1 && |failed + {k}| == |failed| + 1
    ensures (waiting - {k}) + (succeeded + {k}) + failed == all
    ensures (waiting - {k}) + succeeded + (failed + {k}) == all
  {
    assert k in all && k !in succeeded;
  }

  lemma AllDone(waiting: set<nat>, succeeded: set<nat>, failed: set<nat>, all: set<nat>)
    requires waiting !! succeeded && succeeded !! failed && waiting + succeeded + failed == all
    ensures |waiting| + |failed| == 0 <==> succeeded == all
  {
    var others := waiting + failed;
    assert others == all - succeeded;
    assert waiting <= others && failed <= others;
    if |waiting| + |failed| == 0 {
      assert others == {};
    } else {
      var x :| x in others;
      assert x in all && x !in succeeded;
    }
  }

  lemma {:induction false} RunInv(s: State, events: seq<Event>, n: nat)
    requires Inv(s, n) && Enabled(s, events)
    ensures Inv(After(s, events), n)
    ensures After(s, events).wanted == s.wanted
    decreases |events|
  {
    if events != [] {
      StepInv(s, events[0], n);
      RunInv(Next(s, events[0]), events[1..], n);
    }
  }

  /** However the replies of the n requests are ordered, the callback runs
      at most once, and it has run exactly when every request succeeded: one
      failure silences it for good. */
  lemma CallbackExact(wanted: bool, n: nat, events: seq<Event>)
    requires n > 0 && Enabled(Sent(wanted, n), events)
    ensures
      var t := After(Sent(wanted, n), events);
      && t.calls <= 1
      && (t.calls == 1 <==> wanted && forall k: nat :: k < n ==> k in t.succeeded)
      && (t.failed != {} ==> t.calls == 0)
  {
    assert 0 in Numbers(n);
    RunInv(Sent(wanted, n), events, n);
    var t := After(Sent(wanted, n), events);
    assert t.succeeded <= t.waiting + t.succeeded + t.failed;
    assert t.succeeded == Numbers(n) <==> forall k: nat :: k < n ==> k in t.succeeded;
    if t.failed != {} {
      var k: nat :| k in t.failed;
      assert k in t.waiting + t.succeeded + t.failed && k !in t.succeeded;
    }
  }

  // ----- the code

  ghost function BatchesOf(requests: seq<Request>): seq<Batch>
  {
    seq(|requests|, i requires 0 <= i < |requests| => requests[i].batch)
  }

  ghost function Drafted(items: seq<Item>, randoms: seq<int>): (r: seq<Sending>)
    requires |items| == |randoms|
    ensures |r| == |items|
  {
    seq(|items|, i requires 0 <= i < |items| => Sending(items[i], randoms[i]))
  }

  /** The local copies a request knows are those of its own messages, if local copies are made
      at all; `id` is the local id drawn. */
  ghost predicate OwnLocals(r: Request, id: int, local: bool)
  {
    r.localIds == if local then map x | x in r.batch.randomIds :: id else map[]
  }

  ghost predicate AllOwnLocals(requests: seq<Request>, id: int, local: bool)
  {
    forall i :: 0 <= i < |requests| ==> OwnLocals(requests[i], id, local)
  }

  /** What the loop has gathered: closed requests, and an open run that is nonempty once anything was read. */
  ghost predicate Gathered(requests: seq<Request>, open: Batch, draft: seq<Sending>)
  {
    && open.Aligned()
    && AllAligned(BatchesOf(requests)) && |Joined(BatchesOf(requests))| <= |draft|
    && Runs(BatchesOf(requests), draft[..|Joined(BatchesOf(requests))|])
    && draft == Joined(BatchesOf(requests)) + open.Sendings()
    && (requests != [] ==> requests[|requests| - 1].batch.source != open.source && open.ids != [])
  }

  lemma Closing(requests: seq<Request>, open: Batch, localIds: map<int, int>, draft: seq<Sending>)
    requires Gathered(requests, open, draft) && open.ids != []
    ensures Runs(BatchesOf(requests + [Request(open, localIds)]), draft)
  {
    JoinedAdds(BatchesOf(requests), open);
    assert BatchesOf(requests + [Request(open, localIds)]) == BatchesOf(requests) + [open];
    var all := BatchesOf(requests) + [open];
    forall i | 0 < i < |all| ensures all[i - 1].source != all[i].source {
      if i < |requests| {
        assert BatchesOf(requests)[i - 1].source != BatchesOf(requests)[i].source;
      }
    }
  }

  function Extended(open: Batch, x: Sending): Batch
  {
    open.(ids := open.ids + [x.item.id], randomIds := open.randomIds + [x.randomId])
  }

  lemma Extending(requests: seq<Request>, open: Batch, draft: seq<Sending>, x: Sending)
    requires Gathered(requests, open, draft) && x.item.source == open.source
    ensures Gathered(requests, Extended(open, x), draft + [x])
  {
    var joined := Joined(BatchesOf(requests));
    assert Extended(open, x).Sendings() == open.Sendings() + [x];
    assert (draft + [x])[..|joined|] == draft[..|joined|];
  }

  lemma Opening(requests: seq<Request>, last: Batch, localIds: map<int, int>, draft: seq<Sending>, x: Sending)
    requires Gathered(requests, last, draft) && last.ids != [] && x.item.source != last.source
    ensures Gathered(requests + [Request(last, localIds)], Batch(x.item.source, [x.item.id], [x.randomId]), draft + [x])
  {
    Closing(requests, last, localIds, draft);
    assert Batch(x.item.source, [x.item.id], [x.randomId]).Sendings() == [x];
    assert (draft + [x])[..|draft|] == draft;
  }

  /** The whole loop invariant: `local` means that local copies are made. */
  ghost predicate Progress(requests: seq<Request>, open: Batch, localIds: map<int, int>, draft: seq<Sending>,
    id: int, local: bool)
  {
    && Gathered(requests, open, draft)
    && AllOwnLocals(requests, id, local)
    && OwnLocals(Request(open, localIds), id, local)
    && (local ==> |draft| <= 1)
    && (draft != [] ==> open.ids != [])
  }

  function Recorded(localIds: map<int, int>, randomId: int, id: int, local: bool): map<int, int>
  {
    if local then localIds[randomId := id] else localIds
  }

  lemma SameSource(requests: seq<Request>, open: Batch, localIds: map<int, int>, draft: seq<Sending>, x: Sending,
    id: int, local: bool)
    requires Progress(requests, open, localIds, draft, id, local)
    requires x.item.source == open.source && (local ==> draft == [])
    ensures Progress(requests, Extended(open, x), Recorded(localIds, x.randomId, id, local), draft + [x], id, local)
  {
    hide Gathered, Runs, BatchesOf;
    Extending(requests, open, draft, x);
    assert forall r :: r in Extended(open, x).randomIds <==> r in open.randomIds || r == x.randomId;
  }

  lemma NewSource(requests: seq<Request>, open: Batch, localIds: map<int, int>, draft: seq<Sending>, x: Sending,
    id: int)
    requires Progress(requests, open, localIds, draft, id, false)
    requires x.item.source != open.source && draft != []
    ensures Progress(requests + [Request(open, localIds)], Extended(Batch(x.item.source, [], []), x), map[],
      draft + [x], id, false)
  {
    hide Gathered, Runs, BatchesOf;
    assert Extended(Batch(x.item.source, [], []), x) == Batch(x.item.source, [x.item.id], [x.randomId]);
    Opening(requests, open, localIds, draft, x);
  }

  lemma Started(source: int, id: int, local: bool)
    ensures Progress([], Batch(source, [], []), map[], [], id, local)
  {
  }

  lemma Finished(requests: seq<Request>, open: Batch, localIds: map<int, int>, draft: seq<Sending>,
    id: int, local: bool)
    requires Progress(requests, open, localIds, draft, id, local) && draft != []
    ensures
      var all := requests + [Request(open, localIds)];
      Runs(BatchesOf(all), draft) && AllOwnLocals(all, id, local)
  {
    Closing(requests, open, localIds, draft);
  }

  /** The first i messages of the draft. */
  ghost function Taken(items: seq<Item>, randoms: seq<int>, i: nat): seq<Sending>
    requires |randoms| == |items| && i <= |items|
  {
    Drafted(items, randoms)[..i]
  }

  lemma TakenMore(items: seq<Item>, randoms: seq<int>, i: nat)
    requires |randoms| == |items| && i < |items|
    ensures Taken(items, randoms, i + 1) == Taken(items, randoms, i) + [Sending(items[i], randoms[i])]
  {
  }

  lemma TakenEnds(items: seq<Item>, randoms: seq<int>, i: nat)
    requires |randoms| == |items| && i <= |items|
    ensures |Taken(items, randoms, i)| == i
    ensures Taken(items, randoms, 0) == []
    ensures Taken(items, randoms, |items|) == Drafted(items, randoms)
  {
  }

  /** `requestsLeft` and the callback of one forwarding; `wanted` is false when the caller gave none. */
  class SharedCallback {
    const wanted: bool
    var requestsLeft: int
    var calls: nat

    /** The object holds what a state s says it holds. */
    ghost predicate Holds(s: State)
      reads this
    {
      s.wanted == wanted && s.requestsLeft == requestsLeft && s.calls == calls
    }

    constructor (successCallback: bool)
      ensures wanted == successCallback && requestsLeft == 0 && calls == 0
    {
      wanted, requestsLeft, calls := successCallback, 0, 0;
    }

    method SendAccumulated()
      modifies this
      ensures requestsLeft == old(requestsLeft) + if wanted then 1 else 0
      ensures calls == old(calls)
    {
      if wanted {
        requestsLeft := requestsLeft + 1;
      }
    }

    method RequestDone(ghost s: State, k: nat)
      requires Holds(s) && k in s.waiting
      modifies this
      ensures Holds(Next(s, Done(k)))
    {
      if wanted {
        requestsLeft := requestsLeft - 1;
        if requestsLeft == 0 {
          calls := calls + 1;
        }
      }
    }

    method RequestFailed(ghost s: State, k: nat)
      requires Holds(s) && k in s.waiting
      modifies this
      ensures Holds(Next(s, Fail(k)))
    {
    }
  }

  /** `generateLocal` and `preserveInfo` are the two outside conditions for
      local copies. The third, a draft of one message, is what keeps a local
      id out of the request before its own: the id is recorded before the
      change of source is noticed. */
  method ForwardMessages(items: seq<Item>, randoms: seq<int>, nextLocal: int, generateLocal: bool, preserveInfo: bool,
    shared: SharedCallback) returns (requests: seq<Request>)
    requires items != [] && |randoms| == |items|
    requires shared.requestsLeft == 0 && shared.calls == 0
    modifies shared
    ensures Runs(BatchesOf(requests), Drafted(items, randoms))
    ensures AllOwnLocals(requests, nextLocal, generateLocal && preserveInfo && |items| == 1)
    ensures shared.Holds(Sent(shared.wanted, |requests|))
  {
    var local := generateLocal && |items| < 2 && preserveInfo;
    var from := items[0].source;
    var ids, randomIds, localIds: map<int, int> := [], [], map[];
    requests := [];
    TakenEnds(items, randoms, 0);
    Started(from, nextLocal, local);
    hide Progress, Taken, Drafted, Runs, BatchesOf, OwnLocals, AllOwnLocals;
    for i := 0 to |items|
      invariant shared.requestsLeft == (if shared.wanted then |requests| else 0) && shared.calls == 0
      invariant i == 0 ==> from == items[0].source
      invariant Progress(requests, Batch(from, ids, randomIds), localIds, Taken(items, randoms, i), nextLocal, local)
    {
      ghost var open, seen := Batch(from, ids, randomIds), Taken(items, randoms, i);
      ghost var x, before := Sending(items[i], randoms[i]), localIds;
      TakenEnds(items, randoms, i);
      TakenMore(items, randoms, i);
      if local {
        localIds := localIds[randoms[i] := nextLocal + i];
      }
      var newFrom := items[i].source;
      if from != newFrom {
        NewSource(requests, open, localIds, seen, x, nextLocal);
        shared.SendAccumulated();
        requests := requests + [Request(Batch(from, ids, randomIds), localIds)];
        ids, randomIds, localIds := [], [], map[];
        from := newFrom;
      } else {
        SameSource(requests, open, before, seen, x, nextLocal, local);
      }
      ids, randomIds := ids + [items[i].id], randomIds + [randoms[i]];
    }
    TakenEnds(items, randoms, |items|);
    Finished(requests, Batch(from, ids, randomIds), localIds, Taken(items, randoms, |items|), nextLocal, local);
    shared.SendAccumulated();
    requests := requests + [Request(Batch(from, ids, randomIds), localIds)];
  }
}
