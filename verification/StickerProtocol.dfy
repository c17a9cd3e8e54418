/** The requests around saving sticker sets: uninstalls, installs, the final reorder,
    and clearing the recent packs, for the three kinds of sets side by side. */
module StickerProtocol {

  type SetId = nat
  type ReqId = nat

  datatype Kind = Stickers | Masks | Emoji
  datatype Action = Uninstall(id: SetId) | Install(id: SetId)

  /** A request in flight; install and uninstall replies know the order of their save. */
  datatype Request =
    | Disenable(kind: Kind, order: seq<SetId>, action: Action)
    | Reorder(kind: Kind, order: seq<SetId>)
    | ClearRecent(attached: bool)

  /** What one kind keeps. The last two fields are history: the order of the latest save
      and the number of reorder requests sent for it. */
  datatype Lane = Lane(disenable: set<ReqId>, reorderId: ReqId, latest: seq<SetId>, reorders: nat)

  datatype Lanes = Lanes(stickers: Lane, masks: Lane, emoji: Lane)

  datatype Net = Net(lanes: Lanes, clearId: ReqId, clearAttachedId: ReqId, inflight: map<ReqId, Request>,
    nextRequest: ReqId)

  /** What one save sends before its reorder. */
  datatype Sent = Act(action: Action) | Clear(attached: bool)

  function At(net: Net, kind: Kind): Lane
  {
    match kind case Stickers => net.lanes.stickers case Masks => net.lanes.masks case Emoji => net.lanes.emoji
  }

  function With(net: Net, kind: Kind, lane: Lane): (net': Net)
    ensures At(net', kind) == lane
    ensures forall k :: k != kind ==> At(net', k) == At(net, k)
    ensures net' == net.(lanes := net'.lanes)
  {
    match kind
    case Stickers => net.(lanes := net.lanes.(stickers := lane))
    case Masks => net.(lanes := net.lanes.(masks := lane))
    case Emoji => net.(lanes := net.lanes.(emoji := lane))
  }

  function Post(net: Net, request: Request): Net
  {
    net.(inflight := net.inflight[net.nextRequest := request], nextRequest := net.nextRequest + 1)
  }

  /** The cancellations a save starts with. */
  function Cancelled(net: Net, kind: Kind, order: seq<SetId>): Net
  {
    var lane := At(net, kind);
    With(net, kind, Lane({}, 0, order, 0)).(
      clearId := 0, clearAttachedId := 0,
      inflight := net.inflight - lane.disenable - {lane.reorderId} - {net.clearId} - {net.clearAttachedId})
  }

  function SendOne(net: Net, kind: Kind, order: seq<SetId>, x: Sent): Net
  {
    match x
    case Act(a) =>
      var lane := At(net, kind);
      With(Post(net, Disenable(kind, order, a)), kind, lane.(disenable := lane.disenable + {net.nextRequest}))
    case Clear(attached) =>
      var net1 := Post(net, ClearRecent(attached));
      if attached then net1.(clearAttachedId := net.nextRequest) else net1.(clearId := net.nextRequest)
  }

  function SendAll(net: Net, kind: Kind, order: seq<SetId>, sent: seq<Sent>): Net
  {
    if sent == [] then net
    else SendOne(SendAll(net, kind, order, sent[..|sent| - 1]), kind, order, sent[|sent| - 1])
  }

  /** `stickersSaveOrder`: a reorder request unless the order is shorter than two. */
  function SaveOrder(net: Net, kind: Kind, order: seq<SetId>): Net
  {
    if |order| < 2 then net
    else
      var lane := At(net, kind);
      With(Post(net, Reorder(kind, order)), kind, lane.(reorderId := net.nextRequest, reorders := lane.reorders + 1))
  }

  function Finished(net: Net, kind: Kind, order: seq<SetId>): Net
  {
    if At(net, kind).disenable == {} then SaveOrder(net, kind, order) else net
  }

  function Saved(net: Net, kind: Kind, order: seq<SetId>, sent: seq<Sent>): Net
  {
    Finished(SendAll(Cancelled(net, kind, order), kind, order, sent), kind, order)
  }

  /** A reply or a failure; the source treats both alike. */
  function Replied(net: Net, r: ReqId): Net
    requires r in net.inflight
  {
    var net1 := net.(inflight := net.inflight - {r});
    match net.inflight[r]
    case Disenable(kind, order, _) =>
      var lane := At(net, kind);
      Finished(With(net1, kind, lane.(disenable := lane.disenable - {r})), kind, order)
    case Reorder(kind, _) => With(net1, kind, At(net, kind).(reorderId := 0))
    case ClearRecent(attached) => if attached then net1.(clearAttachedId := 0) else net1.(clearId := 0)
  }

  datatype Event = Save(kind: Kind, order: seq<SetId>, sent: seq<Sent>) | Reply(r: ReqId)

  ghost predicate Step(net: Net, e: Event, net': Net)
  {
    match e
    case Save(kind, order, sent) => net' == Saved(net, kind, order, sent)
    case Reply(r) => r in net.inflight && net' == Replied(net, r)
  }

  const NO_LANE := Lane({}, 0, [], 0)
  const START := Net(Lanes(NO_LANE, NO_LANE, NO_LANE), 0, 0, map[], 1)

  // ----- the invariant

  /** Everything in flight for a kind belongs to its latest save. */
  ghost predicate LatestOnly(net: Net, kind: Kind)
  {
    var lane := At(net, kind);
    && (forall r :: r in lane.disenable ==>
      r in net.inflight && net.inflight[r].Disenable? && net.inflight[r].kind == kind)
    && (forall r :: r in net.inflight && net.inflight[r].Disenable? && net.inflight[r].kind == kind ==>
          r in lane.disenable && net.inflight[r].order == lane.latest)
    && (forall r :: r in net.inflight && net.inflight[r].Reorder? && net.inflight[r].kind == kind ==>
          r == lane.reorderId && net.inflight[r].order == lane.latest && lane.disenable == {})
    && lane.reorderId < net.nextRequest
    && (lane.reorderId in net.inflight ==>
      net.inflight[lane.reorderId].Reorder? && net.inflight[lane.reorderId].kind == kind)
  }

  /** A save has sent its one reorder exactly when nothing else of it is outstanding. */
  ghost predicate ReorderedOnce(net: Net, kind: Kind)
  {
    var lane := At(net, kind);
    lane.reorders == if lane.disenable == {} && |lane.latest| >= 2 then 1 else 0
  }

  ghost predicate Sane(net: Net)
  {
    && net.nextRequest > 0 && net.clearId < net.nextRequest && net.clearAttachedId < net.nextRequest
    && (forall r :: r in net.inflight ==> 0 < r < net.nextRequest)
    && (net.clearId in net.inflight ==> net.inflight[net.clearId].ClearRecent?)
    && (net.clearAttachedId in net.inflight ==> net.inflight[net.clearAttachedId].ClearRecent?)
    && (forall k :: LatestOnly(net, k))
  }

  ghost predicate Inv(net: Net)
  {
    Sane(net) && forall k :: ReorderedOnce(net, k)
  }

  /** In the middle of a save of `kind`: nothing reordered yet, everything else in order. */
  ghost predicate Saving(net: Net, kind: Kind, order: seq<SetId>)
  {
    && Sane(net)
    && At(net, kind).latest == order && At(net, kind).reorders == 0
    && (forall r :: r in net.inflight && net.inflight[r].Reorder? ==> net.inflight[r].kind != kind)
    && (forall k :: k != kind ==> ReorderedOnce(net, k))
  }

  lemma CancelledSaving(net: Net, kind: Kind, order: seq<SetId>)
    requires Inv(net)
    ensures Saving(Cancelled(net, kind, order), kind, order)
  {
    var net' := Cancelled(net, kind, order);
    forall k
      ensures LatestOnly(net', k) && (k != kind ==> ReorderedOnce(net', k))
    {
      assert LatestOnly(net, k) && ReorderedOnce(net, k) && LatestOnly(net, kind);
    }
    assert LatestOnly(net, kind);
  }

  lemma SendOneSaving(net: Net, kind: Kind, order: seq<SetId>, x: Sent)
    requires Saving(net, kind, order)
    ensures Saving(SendOne(net, kind, order, x), kind, order)
  {
    var net' := SendOne(net, kind, order, x);
    forall k
      ensures LatestOnly(net', k) && (k != kind ==> ReorderedOnce(net', k))
    {
      assert LatestOnly(net, k) && (k != kind ==> ReorderedOnce(net, k));
      match x {
        case Act(a) => assert k != kind ==> At(net', k) == At(net, k);
        case Clear(attached) => assert At(net', k) == At(net, k);
      }
    }
  }

  lemma {:induction false} SendAllSaving(net: Net, kind: Kind, order: seq<SetId>, sent: seq<Sent>)
    requires Saving(net, kind, order)
    ensures Saving(SendAll(net, kind, order, sent), kind, order)
  {
    if sent != [] {
      SendAllSaving(net, kind, order, sent[..|sent| - 1]);
      SendOneSaving(SendAll(net, kind, order, sent[..|sent| - 1]), kind, order, sent[|sent| - 1]);
    }
  }

  lemma FinishedInv(net: Net, kind: Kind, order: seq<SetId>)
    requires Saving(net, kind, order)
    ensures Inv(Finished(net, kind, order))
  {
    var net' := Finished(net, kind, order);
    forall k
      ensures LatestOnly(net', k) && ReorderedOnce(net', k)
    {
      assert LatestOnly(net, k) && (k != kind ==> ReorderedOnce(net, k));
    }
  }

  lemma DisenabledInv(net: Net, r: ReqId)
    requires Inv(net) && r in net.inflight && net.inflight[r].Disenable?
    ensures Inv(Replied(net, r))
  {
    var kind, order := net.inflight[r].kind, net.inflight[r].order;
    var lane := At(net, kind);
    var net1 := With(net.(inflight := net.inflight - {r}), kind, lane.(disenable := lane.disenable - {r}));
    assert LatestOnly(net, kind) && ReorderedOnce(net, kind);
    forall k
      ensures LatestOnly(net1, k) && (k != kind ==> ReorderedOnce(net1, k))
    {
      assert LatestOnly(net, k) && ReorderedOnce(net, k);
    }
    hide LatestOnly, ReorderedOnce;
    FinishedInv(net1, kind, order);
  }

  lemma ReorderedInv(net: Net, r: ReqId)
    requires Inv(net) && r in net.inflight && !net.inflight[r].Disenable?
    ensures Inv(Replied(net, r))
  {
    var net1 := Replied(net, r);
    forall k
      ensures LatestOnly(net1, k) && ReorderedOnce(net1, k)
    {
      assert LatestOnly(net, k) && ReorderedOnce(net, k);
    }
    hide LatestOnly, ReorderedOnce;
  }

  lemma RepliedInv(net: Net, r: ReqId)
    requires Inv(net) && r in net.inflight
    ensures Inv(Replied(net, r))
  {
    if net.inflight[r].Disenable? {
      DisenabledInv(net, r);
    } else {
      ReorderedInv(net, r);
    }
  }

  lemma StepInv(net: Net, e: Event, net': Net)
    requires Inv(net) && Step(net, e, net')
    ensures Inv(net')
  {
    hide Inv, Saving, Cancelled, SendAll, Finished, Replied;
    match e {
      case Save(kind, order, sent) =>
        CancelledSaving(net, kind, order);
        SendAllSaving(Cancelled(net, kind, order), kind, order, sent);
        FinishedInv(SendAll(Cancelled(net, kind, order), kind, order, sent), kind, order);
      case Reply(r) => RepliedInv(net, r);
    }
  }

  ghost predicate IsRun(nets: seq<Net>, events: seq<Event>)
  {
    && |nets| == |events| + 1 && nets[0] == START
    && forall i :: 0 <= i < |events| ==> Step(nets[i], events[i], nets[i + 1])
  }

  /** Over any sequence of saves and replies of the three kinds. */
  lemma {:induction false} RunInv(nets: seq<Net>, events: seq<Event>)
    requires IsRun(nets, events)
    ensures Inv(nets[|events|])
  {
    if events == [] {
      assert forall k :: LatestOnly(START, k) && ReorderedOnce(START, k);
    } else {
      var n := |events| - 1;
      RunInv(nets[..n + 1], events[..n]);
      StepInv(nets[n], events[n], nets[n + 1]);
    }
  }

  /** A reorder request is in flight only while no install or uninstall is, it carries
      the order of the latest save, and no second one is in flight. */
  lemma ReorderInFlight(nets: seq<Net>, events: seq<Event>, r: ReqId, q: ReqId)
    requires IsRun(nets, events)
    requires var net := nets[|events|]; r in net.inflight && q in net.inflight && net.inflight[r].Reorder?
    ensures var net := nets[|events|]; var f := net.inflight[r];
      && f.order == At(net, f.kind).latest
      && (net.inflight[q].Disenable? ==> net.inflight[q].kind != f.kind)
      && (net.inflight[q].Reorder? && net.inflight[q].kind == f.kind ==> q == r)
  {
    RunInv(nets, events);
    var net := nets[|events|];
    assert LatestOnly(net, net.inflight[r].kind);
  }

  // ----- what is on the wire

  predicate Numbered(net: Net) { forall r :: r in net.inflight ==> r < net.nextRequest }

  /** The requests in flight with numbers from `base` on that are exactly `q`. */
  function Wire(net: Net, base: ReqId, q: Request): set<ReqId>
  {
    set r | r in net.inflight && base <= r && net.inflight[r] == q
  }

  /** The request that carries an uninstall, an install or a clearing. */
  function Carrier(kind: Kind, order: seq<SetId>, x: Sent): Request
  {
    match x
    case Act(Uninstall(id)) => Disenable(kind, order, Uninstall(id))
    case Act(Install(id)) => Disenable(kind, order, Install(id))
    case Clear(attached) => ClearRecent(attached)
  }

  lemma SendOneWire(net: Net, kind: Kind, order: seq<SetId>, x: Sent, base: ReqId, q: Request)
    requires Numbered(net) && base <= net.nextRequest
    ensures var net' := SendOne(net, kind, order, x);
      && Numbered(net') && net'.nextRequest == net.nextRequest + 1
      && |Wire(net', base, q)| == |Wire(net, base, q)| + if q == Carrier(kind, order, x) then 1 else 0
  {
    var net' := SendOne(net, kind, order, x);
    assert net'.inflight == net.inflight[net.nextRequest := Carrier(kind, order, x)];
    PostedWire(net, net', base, q);
  }

  lemma PostedWire(net: Net, net': Net, base: ReqId, q: Request)
    requires Numbered(net) && base <= net.nextRequest && net.nextRequest in net'.inflight
    requires net'.inflight == net.inflight[net.nextRequest := net'.inflight[net.nextRequest]]
    ensures |Wire(net', base, q)| == |Wire(net, base, q)| + if q == net'.inflight[net.nextRequest] then 1 else 0
  {
    var w, w', r := Wire(net, base, q), Wire(net', base, q), net.nextRequest;
    assert r !in w;
    if q == net'.inflight[r] {
      assert w' == w + {r};
    } else {
      assert w' == w;
    }
  }

  /** One request of the right content for each thing sent. */
  lemma {:induction false} SendAllWire(net: Net, kind: Kind, order: seq<SetId>, sent: seq<Sent>, base: ReqId, x: Sent)
    requires Numbered(net) && base <= net.nextRequest
    ensures var net', q := SendAll(net, kind, order, sent), Carrier(kind, order, x);
      && Numbered(net') && net'.nextRequest == net.nextRequest + |sent|
      && |Wire(net', base, q)| == |Wire(net, base, q)| + multiset(sent)[x]
  {
    if sent != [] {
      var init, last := sent[..|sent| - 1], sent[|sent| - 1];
      SendAllWire(net, kind, order, init, base, x);
      SendOneWire(SendAll(net, kind, order, init), kind, order, last, base, Carrier(kind, order, x));
      assert multiset(sent) == multiset(init) + multiset{last} by { assert sent == init + [last]; }
    }
  }

  /** A save has in flight, of what it sent, exactly one request for each install, uninstall
      and clearing. For installs and uninstalls of its kind it is all there is. */
  lemma SavedWire(net: Net, kind: Kind, order: seq<SetId>, sent: seq<Sent>, x: Sent)
    requires Inv(net)
    ensures var net', q := Saved(net, kind, order, sent), Carrier(kind, order, x);
      && |Wire(net', net.nextRequest, q)| == multiset(sent)[x]
      && (x.Act? ==> Wire(net', net.nextRequest, q) == Wire(net', 0, q))
  {
    var c, base, q := Cancelled(net, kind, order), net.nextRequest, Carrier(kind, order, x);
    var all := SendAll(c, kind, order, sent);
    assert LatestOnly(net, kind);
    assert Wire(c, base, q) == {};
    SendAllWire(c, kind, order, sent, base, x);
    var net' := Saved(net, kind, order, sent);
    assert Wire(net', base, q) == Wire(all, base, q);
    if x.Act? {
      CancelledExact(net, kind, order, 0);
      SendAllOld(c, kind, order, sent);
      forall r | r in Wire(net', 0, q)
        ensures base <= r
      {
        if r < base {
          CancelledExact(net, kind, order, r);
        }
      }
    }
  }

  lemma {:induction false} SendAllOld(net: Net, kind: Kind, order: seq<SetId>, sent: seq<Sent>)
    requires Numbered(net)
    ensures var net' := SendAll(net, kind, order, sent);
      && net'.nextRequest == net.nextRequest + |sent|
      && forall r :: r < net.nextRequest ==>
           (r in net'.inflight <==> r in net.inflight) && (r in net.inflight ==> net'.inflight[r] == net.inflight[r])
  {
    if sent != [] {
      SendAllOld(net, kind, order, sent[..|sent| - 1]);
    }
  }

  /** Exactly what a save cancels: what its kind has in flight and the clearings on record. */
  lemma CancelledExact(net: Net, kind: Kind, order: seq<SetId>, r: ReqId)
    requires Inv(net)
    ensures var net' := Cancelled(net, kind, order);
      && (r in net'.inflight <==>
            r in net.inflight && r != net.clearId && r != net.clearAttachedId
            && (net.inflight[r].ClearRecent? || net.inflight[r].kind != kind))
      && (r in net'.inflight ==> net'.inflight[r] == net.inflight[r])
  {
    assert LatestOnly(net, kind);
    if r in net.inflight && !net.inflight[r].ClearRecent? {
      assert LatestOnly(net, net.inflight[r].kind);
    }
  }

  /** After a save that leaves nothing outstanding, and after the reply that leaves nothing
      outstanding, the reorder with the latest order is in flight, if there is anything to
      reorder; with something outstanding none is. */
  lemma SavedReorder(net: Net, kind: Kind, order: seq<SetId>, sent: seq<Sent>)
    requires Inv(net)
    ensures var net' := Saved(net, kind, order, sent);
      |Wire(net', 0, Reorder(kind, order))| == if |order| >= 2 && forall a :: Act(a) !in sent then 1 else 0
  {
    var c := Cancelled(net, kind, order);
    var all := SendAll(c, kind, order, sent);
    var q := Reorder(kind, order);
    assert LatestOnly(net, kind);
    assert Wire(c, 0, q) == {};
    SendAllNoReorder(c, kind, order, sent, q);
    var net' := Saved(net, kind, order, sent);
    if At(all, kind).disenable == {} && |order| >= 2 {
      PostedWire(all, net', 0, q);
    }
  }

  lemma {:induction false} SendAllNoReorder(net: Net, kind: Kind, order: seq<SetId>, sent: seq<Sent>, q: Request)
    requires Numbered(net) && q.Reorder? && At(net, kind).disenable == {}
    ensures var net' := SendAll(net, kind, order, sent);
      && Numbered(net') && |Wire(net', 0, q)| == |Wire(net, 0, q)|
      && (At(net', kind).disenable == {} <==> forall a :: Act(a) !in sent)
  {
    if sent != [] {
      var init, last := sent[..|sent| - 1], sent[|sent| - 1];
      var all := SendAll(net, kind, order, init);
      SendAllNoReorder(net, kind, order, init, q);
      SendOneWire(all, kind, order, last, 0, q);
      assert sent == init + [last];
    }
  }

  lemma RepliedReorder(net: Net, r: ReqId)
    requires Inv(net) && r in net.inflight && net.inflight[r].Disenable?
    ensures var kind := net.inflight[r].kind; var lane, net' := At(net, kind), Replied(net, r);
      |Wire(net', 0, Reorder(kind, lane.latest))| == if lane.disenable == {r} && |lane.latest| >= 2 then 1 else 0
  {
    var kind := net.inflight[r].kind;
    var lane, net', q := At(net, kind), Replied(net, r), Reorder(kind, At(net, kind).latest);
    assert LatestOnly(net, kind) && r in lane.disenable;
    var net1 := With(net.(inflight := net.inflight - {r}), kind, lane.(disenable := lane.disenable - {r}));
    assert Wire(net1, 0, q) == {};
    assert lane.disenable - {r} == {} <==> lane.disenable == {r};
    if lane.disenable == {r} && |lane.latest| >= 2 {
      PostedWire(net1, net', 0, q);
    }
  }
}
