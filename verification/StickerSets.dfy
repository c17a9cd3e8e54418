/** Saving sticker sets: four in-place passes over the store, the order and the recent
    stickers, interleaved with the requests of StickerProtocol. */
module StickerSets {
  import opened Collections
  import opened StickerProtocol

  type DocId = nat

  datatype StickerSet = StickerSet(
    installed: bool, archived: bool, featured: bool, special: bool, masks: bool, emoji: bool,
    locked: int, installDate: int, stickers: seq<DocId>)

  type Sets = map<SetId, StickerSet>
  datatype Recent = Recent(doc: DocId, count: nat)

  const CUSTOM: SetId := 0xFFFF_FFFF_FFFF_FFFF
  const CLOUD_RECENT: SetId := 0xFFFF_FFFF_FFFF_FFFC
  const CLOUD_RECENT_ATTACHED: SetId := 0xFFFF_FFFF_FFFF_FFF9

  // ----- what a save does, set by set

  predicate IsCloud(id: SetId) { id == CLOUD_RECENT || id == CLOUD_RECENT_ATTACHED }

  predicate CloudRemoved(removed: seq<SetId>) { exists id :: id in removed && IsCloud(id) }

  predicate Erasable(s: StickerSet)
  {
    !s.archived && !s.featured && !s.special && !s.emoji && s.locked <= 0
  }

  predicate Survives(sets: Sets, removed: seq<SetId>, id: SetId)
  {
    && id in sets
    && !(CloudRemoved(removed) && (IsCloud(id) || id == CUSTOM))
    && !(id in removed && !IsCloud(id) && Erasable(sets[id]))
  }

  function KindOf(s: StickerSet): Kind
  {
    if s.emoji then Emoji else if s.masks then Masks else Stickers
  }

  predicate Keep(s: StickerSet)
  {
    s.featured || s.installed || s.archived || s.special || s.emoji || s.locked > 0
  }

  function Unmarked(s: StickerSet, removed: seq<SetId>, id: SetId): StickerSet
  {
    if id in removed && !IsCloud(id) && !s.archived then s.(installed := false, installDate := 0) else s
  }

  function Cleared(s: StickerSet, kind: Kind): StickerSet
  {
    if !s.archived && KindOf(s) == kind then s.(installed := false) else s
  }

  function Ordered(s: StickerSet, order: seq<SetId>, removed: seq<SetId>, now: int, id: SetId): StickerSet
  {
    if id in order then
      s.(archived := s.archived && id in removed, installed := true,
         installDate := if s.installDate == 0 then now else s.installDate)
    else s
  }

  /** The flags one set ends with. */
  function Result(s: StickerSet, kind: Kind, order: seq<SetId>, removed: seq<SetId>, now: int, id: SetId): StickerSet
  {
    Ordered(Cleared(Unmarked(s, removed, id), kind), order, removed, now, id)
  }

  function SavedSets(sets: Sets, kind: Kind, order: seq<SetId>, removed: seq<SetId>, now: int): Sets
  {
    map id | id in sets && Survives(sets, removed, id) && Keep(Result(sets[id], kind, order, removed, now, id))
      :: Result(sets[id], kind, order, removed, now, id)
  }

  /** `order` without the sets that did not survive removal. */
  function SavedOrder(sets: Sets, order: seq<SetId>, removed: seq<SetId>): seq<SetId>
  {
    if order == [] then []
    else
      var rest := SavedOrder(sets, order[..|order| - 1], removed);
      var id := order[|order| - 1];
      if Survives(sets, removed, id) then rest + [id] else rest
  }

  function GoneDocs(sets: Sets, removed: seq<SetId>): set<DocId>
  {
    set id, d | id in removed && !IsCloud(id) && id in sets && d in sets[id].stickers :: d
  }

  function Without(recent: seq<Recent>, gone: set<DocId>): seq<Recent>
  {
    if recent == [] then []
    else (if recent[0].doc in gone then [] else [recent[0]]) + Without(recent[1..], gone)
  }

  function SavedRecent(recent: seq<Recent>, sets: Sets, removed: seq<SetId>): seq<Recent>
  {
    if CloudRemoved(removed) then [] else Without(recent, GoneDocs(sets, removed))
  }

  // ----- what that guarantees

  /** The order is the requested one restricted to the survivors, and each of its sets is
      stored and installed. */
  lemma {:induction false} OrderStoredInstalled(sets: Sets, kind: Kind, order: seq<SetId>, removed: seq<SetId>,
    now: int, id: SetId)
    ensures id in SavedOrder(sets, order, removed) <==> id in order && Survives(sets, removed, id)
    ensures id in SavedOrder(sets, order, removed) ==>
      var saved := SavedSets(sets, kind, order, removed, now); id in saved && saved[id].installed
  {
    OrderMembers(sets, order, removed, id);
  }

  lemma {:induction false} OrderMembers(sets: Sets, order: seq<SetId>, removed: seq<SetId>, id: SetId)
    ensures id in SavedOrder(sets, order, removed) <==> id in order && Survives(sets, removed, id)
  {
    if order != [] {
      OrderMembers(sets, order[..|order| - 1], removed, id);
      assert order == order[..|order| - 1] + [order[|order| - 1]];
    }
  }

  /** A non-archived stored set of the saved kind is installed exactly when it is in the order. */
  lemma InstalledIffOrdered(sets: Sets, kind: Kind, order: seq<SetId>, removed: seq<SetId>, now: int, id: SetId)
    ensures var saved := SavedSets(sets, kind, order, removed, now);
      id in saved && !saved[id].archived && KindOf(saved[id]) == kind ==>
        (saved[id].installed <==> id in SavedOrder(sets, order, removed))
  {
    OrderMembers(sets, order, removed, id);
  }

  /** The new order is the requested one with the sets that did not survive taken out: part by
      part, in place, and with its repetitions. */
  lemma {:induction false} OrderFiltered(sets: Sets, a: seq<SetId>, b: seq<SetId>, removed: seq<SetId>)
    ensures SavedOrder(sets, a + b, removed) == SavedOrder(sets, a, removed) + SavedOrder(sets, b, removed)
    ensures |a| == 1 ==> SavedOrder(sets, a, removed) == if Survives(sets, removed, a[0]) then a else []
  {
    hide Survives;
    assert |a| == 1 ==> a[..0] == [] && a == [a[0]];
    if b == [] {
      assert a + b == a;
    } else {
      assert (a + b)[..|a + b| - 1] == a + b[..|b| - 1];
      OrderFiltered(sets, a, b[..|b| - 1], removed);
    }
  }

  /** What a stored set ends with: only the flags and the date of installing change, and how. */
  lemma FlagsExact(sets: Sets, kind: Kind, order: seq<SetId>, removed: seq<SetId>, now: int, id: SetId)
    requires id in SavedSets(sets, kind, order, removed, now)
    ensures var s, t := sets[id], SavedSets(sets, kind, order, removed, now)[id];
      && t == s.(installed := t.installed, archived := t.archived, installDate := t.installDate)
      && (t.archived <==> s.archived && (id !in order || id in removed))
      && (id in order ==> t.installed)
      && (id in order && s.installDate != 0 && (id !in removed || s.archived) ==> t.installDate == s.installDate)
      && (id !in order && id in removed && !IsCloud(id) && !s.archived ==> !t.installed && t.installDate == 0)
      && (id !in order && id !in removed ==>
            t.installDate == s.installDate && (t.installed <==> s.installed && (s.archived || KindOf(s) != kind)))
      && (id in order && (s.installDate == 0 || (id in removed && !s.archived && !IsCloud(id))) ==>
            t.installDate == now)
  {
  }

  /** The recent stickers go one by one, and the rest keep their order and counts. */
  lemma {:induction false} WithoutFiltered(a: seq<Recent>, b: seq<Recent>, gone: set<DocId>)
    ensures Without(a + b, gone) == Without(a, gone) + Without(b, gone)
    ensures |a| == 1 ==> Without(a, gone) == if a[0].doc in gone then [] else a
  {
    if a == [] {
      assert a + b == b;
    } else {
      assert (a + b)[1..] == a[1..] + b;
      WithoutFiltered(a[1..], b, gone);
    }
  }

  /** A set of another kind that the call does not name stays as it is, if it had a reason to
      be stored in the first place. */
  lemma OtherKindsKept(sets: Sets, kind: Kind, order: seq<SetId>, removed: seq<SetId>, now: int, id: SetId)
    requires id in sets && KindOf(sets[id]) != kind
    requires id !in order && id !in removed && (IsCloud(id) || id == CUSTOM ==> !CloudRemoved(removed))
    ensures var saved := SavedSets(sets, kind, order, removed, now);
      (id in saved <==> Keep(sets[id])) && (id in saved ==> saved[id] == sets[id])
  {
  }

  /** Exactly when a stored set disappears. */
  lemma LostExactlyWhen(sets: Sets, kind: Kind, order: seq<SetId>, removed: seq<SetId>, now: int, id: SetId)
    requires id in sets
    ensures var s := sets[id];
      id !in SavedSets(sets, kind, order, removed, now) <==>
        || !Survives(sets, removed, id)
        || (&& id !in order && !s.featured && !s.archived && !s.special && !s.emoji && s.locked <= 0
            && (s.installed ==> KindOf(s) == kind || (id in removed && !IsCloud(id))))
  {
  }

  // ----- the requests of one save

  predicate ToInstall(sets: Sets, order: seq<SetId>, removed: seq<SetId>, id: SetId)
  {
    id in order && id !in removed && Survives(sets, removed, id) && sets[id].archived
  }

  /** The removals before the first of a cloud pack. */
  function BeforeCloud(removed: seq<SetId>): seq<SetId>
  {
    if removed == [] || IsCloud(removed[0]) then [] else [removed[0]] + BeforeCloud(removed[1..])
  }

  /** How often the removals name a set: the custom set only counts until it goes with the
      first cloud pack. */
  function Named(removed: seq<SetId>, id: SetId): nat
  {
    if id == CUSTOM then multiset(BeforeCloud(removed))[id] else multiset(removed)[id]
  }

  /** How many uninstall requests a set gets: one if it is erased then, else one each time it
      is named. */
  function Uninstalls(sets: Sets, removed: seq<SetId>, id: SetId): nat
  {
    if IsCloud(id) || id !in sets || sets[id].archived then 0
    else if Erasable(sets[id]) && Named(removed, id) > 0 then 1
    else Named(removed, id)
  }

  /** The requests of one save with their number: installs, uninstalls, clearings. */
  ghost predicate SentRight(sets: Sets, order: seq<SetId>, removed: seq<SetId>, allRemoved: seq<SetId>, sent: seq<Sent>)
  {
    && (forall id :: multiset(sent)[Act(Install(id))] == if ToInstall(sets, order, allRemoved, id) then 1 else 0)
    && (forall id :: multiset(sent)[Act(Uninstall(id))] == Uninstalls(sets, removed, id))
    && multiset(sent)[Clear(false)] == multiset(removed)[CLOUD_RECENT]
    && multiset(sent)[Clear(true)] == multiset(removed)[CLOUD_RECENT_ATTACHED]
  }

  lemma {:induction false} BeforeCloudMore(removed: seq<SetId>, x: SetId)
    ensures !CloudRemoved(removed) ==> BeforeCloud(removed) == removed
    ensures BeforeCloud(removed + [x])
         == if CloudRemoved(removed) || IsCloud(x) then BeforeCloud(removed) else removed + [x]
  {
    if removed == [] {
      assert [x][1..] == [];
    } else {
      var rest := removed[1..];
      assert (removed + [x])[1..] == rest + [x] && removed == [removed[0]] + rest;
      assert CloudRemoved(removed) <==> IsCloud(removed[0]) || CloudRemoved(rest) by { CloudRemovedHead(removed); }
      BeforeCloudMore(rest, x);
    }
  }

  lemma CloudRemovedHead(removed: seq<SetId>)
    requires removed != []
    ensures CloudRemoved(removed) <==> IsCloud(removed[0]) || CloudRemoved(removed[1..])
  {
    if CloudRemoved(removed) {
      var id :| id in removed && IsCloud(id);
      assert id == removed[0] || id in removed[1..];
    }
    if CloudRemoved(removed[1..]) {
      var id :| id in removed[1..] && IsCloud(id);
      assert id in removed;
    }
  }

  lemma NamedMore(removed: seq<SetId>, x: SetId, id: SetId)
    ensures Named(removed + [x], id)
         == Named(removed, id) + if id == x && !(x == CUSTOM && CloudRemoved(removed)) then 1 else 0
  {
    hide CloudRemoved;
    BeforeCloudMore(removed, x);
    assert multiset(removed + [x]) == multiset(removed) + multiset{x};
  }

  lemma NamedMeans(removed: seq<SetId>, id: SetId)
    ensures Named(removed, id) > 0 ==> id in removed
    ensures !(id == CUSTOM && CloudRemoved(removed)) ==> Named(removed, id) == multiset(removed)[id]
  {
    hide CloudRemoved;
    BeforeCloudMore(removed, id);
    BeforeCloudWithin(removed, id);
  }

  lemma {:induction false} BeforeCloudWithin(removed: seq<SetId>, id: SetId)
    ensures id in BeforeCloud(removed) ==> id in removed
  {
    if removed != [] && !IsCloud(removed[0]) {
      BeforeCloudWithin(removed[1..], id);
    }
  }

  // ----- the passes as functions

  function RemovedSets(sets: Sets, removed: seq<SetId>): Sets
  {
    map id | id in sets && Survives(sets, removed, id) :: Unmarked(sets[id], removed, id)
  }

  function RemoveStep(sets: Sets, id: SetId): Sets
  {
    if IsCloud(id) then sets - {CLOUD_RECENT, CLOUD_RECENT_ATTACHED, CUSTOM}
    else if id in sets && !sets[id].archived then
      if Erasable(sets[id]) then sets - {id} else sets[id := sets[id].(installed := false, installDate := 0)]
    else sets
  }

  function RecentStep(recent: seq<Recent>, sets: Sets, id: SetId): seq<Recent>
  {
    if IsCloud(id) then []
    else if id in sets then Without(recent, set d | d in sets[id].stickers)
    else recent
  }

  function SentStep(sets: Sets, id: SetId): seq<Sent>
  {
    if IsCloud(id) then [Clear(id == CLOUD_RECENT_ATTACHED)]
    else if id in sets && !sets[id].archived then [Act(Uninstall(id))]
    else []
  }

  function ClearedSets(sets: Sets, kind: Kind): Sets
  {
    map id | id in sets :: Cleared(sets[id], kind)
  }

  function OrderedSets(sets: Sets, order: seq<SetId>, removed: seq<SetId>, now: int): Sets
  {
    map id | id in sets :: Ordered(sets[id], order, removed, now, id)
  }

  lemma CloudRemovedMore(removed: seq<SetId>, x: SetId)
    ensures CloudRemoved(removed + [x]) <==> CloudRemoved(removed) || IsCloud(x)
  {
    if CloudRemoved(removed) {
      var id :| id in removed && IsCloud(id);
      assert id in removed + [x];
    }
    if IsCloud(x) {
      assert x in removed + [x];
    }
  }

  lemma RemoveStepIs(sets: Sets, removed: seq<SetId>, x: SetId)
    ensures RemoveStep(RemovedSets(sets, removed), x) == RemovedSets(sets, removed + [x])
  {
    CloudRemovedMore(removed, x);
    var a, b := RemoveStep(RemovedSets(sets, removed), x), RemovedSets(sets, removed + [x]);
    hide CloudRemoved;
    forall id
      ensures id in a <==> id in b
      ensures id in a ==> a[id] == b[id]
    {
    }
  }

  lemma {:induction false} WithoutTwice(recent: seq<Recent>, a: set<DocId>, b: set<DocId>)
    ensures Without(Without(recent, a), b) == Without(recent, a + b)
  {
    if recent != [] {
      WithoutTwice(recent[1..], a, b);
      assert [] + Without(recent[1..], a) == Without(recent[1..], a);
      if recent[0].doc !in a {
        assert ([recent[0]] + Without(recent[1..], a))[1..] == Without(recent[1..], a);
      }
    }
  }

  lemma {:induction false} WithoutNothing(recent: seq<Recent>)
    ensures Without(recent, {}) == recent
  {
    if recent != [] {
      WithoutNothing(recent[1..]);
    }
  }

  lemma RecentStepIs(recent: seq<Recent>, sets: Sets, removed: seq<SetId>, x: SetId)
    ensures RecentStep(SavedRecent(recent, sets, removed), RemovedSets(sets, removed), x) ==
      SavedRecent(recent, sets, removed + [x])
  {
    CloudRemovedMore(removed, x);
    if !CloudRemoved(removed) && !IsCloud(x) {
      var gone, more := GoneDocs(sets, removed), GoneDocs(sets, removed + [x]);
      if x in sets {
        var docs := set d | d in sets[x].stickers;
        assert more == gone + docs;
        if x in RemovedSets(sets, removed) {
          WithoutTwice(recent, gone, docs);
        } else {
          assert x in removed && more == gone;
        }
      } else {
        assert more == gone;
      }
    }
  }

  lemma UninstallsMore(sets: Sets, removed: seq<SetId>, x: SetId, id: SetId)
    ensures Uninstalls(sets, removed + [x], id) == Uninstalls(sets, removed, id)
      + if id == x && !IsCloud(x) && x in RemovedSets(sets, removed) && !sets[x].archived then 1 else 0
  {
    hide CloudRemoved;
    NamedMore(removed, x, id);
    NamedMeans(removed, id);
    assert x in RemovedSets(sets, removed) <==> Survives(sets, removed, x);
    hide Named;
  }

  /** A set gets more than one uninstall request exactly when it is kept and still named more
      than once. */
  lemma UninstalledTwiceExactlyWhen(sets: Sets, removed: seq<SetId>, id: SetId)
    ensures Uninstalls(sets, removed, id) > 1 <==>
      !IsCloud(id) && id in sets && !sets[id].archived && !Erasable(sets[id]) && Named(removed, id) > 1
  {
  }

  /** And that happens: a featured set named twice. */
  lemma FeaturedTwice(x: StickerSet, id: SetId)
    requires x.featured && !x.archived && !IsCloud(id) && id != CUSTOM
    ensures Uninstalls(map[id := x], [id, id], id) == 2
  {
    assert multiset([id, id])[id] == 2;
  }

  lemma SentStepRight(sets: Sets, removed: seq<SetId>, allRemoved: seq<SetId>, sent: seq<Sent>, x: SetId)
    requires SentRight(sets, [], removed, allRemoved, sent)
    ensures SentRight(sets, [], removed + [x], allRemoved, sent + SentStep(RemovedSets(sets, removed), x))
  {
    var step := SentStep(RemovedSets(sets, removed), x);
    assert multiset(sent + step) == multiset(sent) + multiset(step);
    assert multiset(removed + [x]) == multiset(removed) + multiset{x};
    assert x in RemovedSets(sets, removed) ==> x in sets && RemovedSets(sets, removed)[x].archived == sets[x].archived;
    hide CloudRemoved, RemovedSets, Uninstalls;
    forall id
      ensures multiset(sent + step)[Act(Uninstall(id))] == Uninstalls(sets, removed + [x], id)
    {
      UninstallsMore(sets, removed, x, id);
    }
  }

  lemma OrderStepIs(sets: Sets, order: seq<SetId>, removed: seq<SetId>, now: int, x: SetId)
    requires x in sets
    ensures var before := OrderedSets(sets, order, removed, now);
      OrderedSets(sets, order + [x], removed, now) == before[x := before[x].(
        archived := before[x].archived && x in removed, installed := true,
        installDate := if before[x].installDate == 0 then now else before[x].installDate)]
  {
  }

  lemma OrderSkipIs(sets: Sets, order: seq<SetId>, removed: seq<SetId>, now: int, x: SetId)
    requires x !in sets
    ensures OrderedSets(sets, order + [x], removed, now) == OrderedSets(sets, order, removed, now)
  {
  }

  /** The requests of the ordering pass, one position at a time. */
  lemma InstallStepRight(sets: Sets, order: seq<SetId>, removed: seq<SetId>, sent: seq<Sent>, kind: Kind, now: int,
    x: SetId)
    requires SentRight(sets, order, removed, removed, sent)
    ensures var before := OrderedSets(ClearedSets(RemovedSets(sets, removed), kind), order, removed, now);
      SentRight(sets, order + [x], removed, removed,
        sent + if x in before && before[x].archived && x !in removed then [Act(Install(x))] else [])
  {
    hide CloudRemoved;
    var before := OrderedSets(ClearedSets(RemovedSets(sets, removed), kind), order, removed, now);
    var more := if x in before && before[x].archived && x !in removed then [Act(Install(x))] else [];
    assert multiset(sent + more) == multiset(sent) + multiset(more);
    assert x in before <==> x in sets && Survives(sets, removed, x);
    assert x in before ==> before[x].archived == (sets[x].archived && (x in order ==> x in removed));
  }

  /** The three passes before pruning give every survivor its final flags. */
  lemma PassesCompose(sets: Sets, kind: Kind, order: seq<SetId>, removed: seq<SetId>, now: int)
    ensures var before := OrderedSets(ClearedSets(RemovedSets(sets, removed), kind), order, removed, now);
      SavedSets(sets, kind, order, removed, now) == map id | id in before && Keep(before[id]) :: before[id]
  {
    hide CloudRemoved;
  }

  // ----- the code

  class ApiWrap {
    var sets: Sets
    var orders: map<Kind, seq<SetId>>
    var recent: seq<Recent>
    var net: Net

    constructor (sets: Sets, orders: map<Kind, seq<SetId>>, recent: seq<Recent>)
      ensures this.sets == sets && this.orders == orders && this.recent == recent && net == START
    {
      this.sets, this.orders, this.recent, net := sets, orders, recent, START;
    }

    method Send(request: Request) returns (r: ReqId)
      modifies this`net
      ensures r == old(net.nextRequest) && net == Post(old(net), request)
    {
      r := net.nextRequest;
      net := net.(inflight := net.inflight[r := request], nextRequest := r + 1);
    }

    method Cancel(r: ReqId)
      modifies this`net
      ensures net == old(net).(inflight := old(net).inflight - {r})
    {
      net := net.(inflight := net.inflight - {r});
    }

    method SendDisenable(kind: Kind, order: seq<SetId>, action: Action)
      modifies this`net
      ensures net == SendOne(old(net), kind, order, Act(action))
    {
      var requestId := Send(Disenable(kind, order, action));
      var lane := At(net, kind);
      net := With(net, kind, lane.(disenable := lane.disenable + {requestId}));
    }

    method StickersSaveOrder(kind: Kind, order: seq<SetId>)
      modifies this`net
      ensures net == SaveOrder(old(net), kind, order)
    {
      if |order| < 2 {
        return;
      }
      var r := Send(Reorder(kind, order));
      var lane := At(net, kind);
      net := With(net, kind, lane.(reorderId := r, reorders := lane.reorders + 1));
    }

    /** A reply to request r, or its failure. */
    method Finish(r: ReqId)
      requires r in net.inflight
      modifies this`net
      ensures net == Replied(old(net), r)
    {
      var request := net.inflight[r];
      Cancel(r);
      match request {
        case Disenable(kind, order, _) =>
          var lane := At(net, kind);
          net := With(net, kind, lane.(disenable := lane.disenable - {r}));
          if At(net, kind).disenable == {} {
            StickersSaveOrder(kind, order);
          }
        case Reorder(kind, _) =>
          net := With(net, kind, At(net, kind).(reorderId := 0));
        case ClearRecent(attached) =>
          net := if attached then net.(clearAttachedId := 0) else net.(clearId := 0);
      }
    }

    /** The cancellations at the start of a save. */
    method CancelPrevious(kind: Kind, order: seq<SetId>)
      modifies this`net
      ensures net == Cancelled(old(net), kind, order)
    {
      var lane, clearId, clearAttachedId := At(net, kind), net.clearId, net.clearAttachedId;
      ghost var start := net;
      var todo := lane.disenable;
      while todo != {}
        invariant todo <= lane.disenable
        invariant net == start.(inflight := start.inflight - (lane.disenable - todo))
      {
        var r := Pick(todo);
        todo := todo - {r};
        Cancel(r);
      }
      Cancel(lane.reorderId);
      Cancel(clearId);
      Cancel(clearAttachedId);
      net := With(net, kind, Lane({}, 0, order, 0)).(clearId := 0, clearAttachedId := 0);
    }

    /** Erase the recent stickers that belong to the set. */
    method DropRecent(set': StickerSet)
      modifies this`recent
      ensures recent == Without(old(recent), set d | d in set'.stickers)
    {
      var gone := set d | d in set'.stickers;
      ghost var before := recent;
      ghost var kept: seq<Recent>, rest := [], recent;
      var i := 0;
      while i < |recent|
        invariant i == |kept| && recent == kept + rest
        invariant kept + Without(rest, gone) == Without(before, gone)
        decreases |rest|
      {
        WithoutFirst(kept, rest, gone);
        if recent[i].doc in gone {
          recent := recent[..i] + recent[i + 1..];
        } else {
          kept := kept + [rest[0]];
          i := i + 1;
        }
        rest := rest[1..];
      }
    }

    /** One step of the removal loop. */
    method RemoveOne(id: SetId, kind: Kind, order: seq<SetId>, ghost sent: seq<Sent>) returns (ghost sent': seq<Sent>)
      modifies this
      ensures sets == RemoveStep(old(sets), id) && recent == RecentStep(old(recent), old(sets), id)
      ensures sent' == sent + SentStep(old(sets), id) && OthersKept(kind, old(orders), orders)
      ensures net == if SentStep(old(sets), id) == [] then old(net)
        else SendOne(old(net), kind, order, SentStep(old(sets), id)[0])
    {
      sent' := sent + SentStep(sets, id);
      if id == CLOUD_RECENT || id == CLOUD_RECENT_ATTACHED {
        sets := sets - {CLOUD_RECENT};
        sets := sets - {CLOUD_RECENT_ATTACHED};
        sets := sets - {CUSTOM};
        if recent != [] {
          recent := [];
        }
        var isAttached := id == CLOUD_RECENT_ATTACHED;
        var requestId := Send(ClearRecent(isAttached));
        net := if isAttached then net.(clearAttachedId := requestId) else net.(clearId := requestId);
        return;
      }
      if id in sets {
        var set' := sets[id];
        DropRecent(set');
        if !set'.archived {
          SendDisenable(kind, order, Uninstall(id));
          if kind in orders {
            RemoveFirst(kind, id);
          }
          if !set'.featured && !set'.special && !set'.emoji && !(set'.locked > 0) {
            sets := sets - {id};
          } else {
            sets := sets[id := set'.(installed := false, archived := false, installDate := 0)];
          }
        }
      }
    }

    method RemoveFirst(kind: Kind, id: SetId)
      requires kind in orders
      modifies this`orders
      ensures orders.Keys == old(orders.Keys)
      ensures forall k :: k in orders && k != kind ==> orders[k] == old(orders)[k]
    {
      var order := orders[kind];
      for i := 0 to |order|
        invariant orders == old(orders)
      {
        if order[i] == id {
          orders := orders[kind := order[..i] + order[i + 1..]];
          return;
        }
      }
    }

    method RemoveSets(kind: Kind, order: seq<SetId>, removed: seq<SetId>) returns (ghost sent: seq<Sent>)
      modifies this
      ensures sets == RemovedSets(old(sets), removed)
      ensures recent == SavedRecent(old(recent), old(sets), removed)
      ensures SentRight(old(sets), [], removed, removed, sent)
      ensures net == SendAll(old(net), kind, order, sent)
      ensures OthersKept(kind, old(orders), orders)
    {
      hide RemovedSets, SavedRecent, SentRight, RemoveStep, RecentStep;
      ghost var sets0, recent0, net0 := sets, recent, net;
      sent := [];
      NothingRemoved(sets, recent, removed);
      var i := 0;
      while i < |removed|
        invariant 0 <= i <= |removed|
        invariant sets == RemovedSets(sets0, removed[..i])
        invariant recent == SavedRecent(recent0, sets0, removed[..i])
        invariant SentRight(sets0, [], removed[..i], removed, sent)
        invariant net == SendAll(net0, kind, order, sent)
        invariant OthersKept(kind, old(orders), orders)
      {
        assert removed[..i + 1] == removed[..i] + [removed[i]];
        RemoveStepIs(sets0, removed[..i], removed[i]);
        RecentStepIs(recent0, sets0, removed[..i], removed[i]);
        SentStepRight(sets0, removed[..i], removed, sent, removed[i]);
        ghost var step := SentStep(sets, removed[i]);
        SendAllMore(net0, kind, order, sent, step);
        sent := RemoveOne(removed[i], kind, order, sent);
        i := i + 1;
      }
      assert removed[..i] == removed;
    }

    /** Installed flags go; the ordering pass sets those of the ordered sets again. */
    method ClearInstalled(kind: Kind)
      modifies this`sets
      ensures sets == ClearedSets(old(sets), kind)
    {
      ghost var before := sets;
      var todo := sets.Keys;
      while todo != {}
        invariant todo <= sets.Keys == before.Keys
        invariant forall id :: id in before ==> sets[id] == if id in todo then before[id] else Cleared(before[id], kind)
      {
        var id := Pick(todo);
        todo := todo - {id};
        var thatKind := if sets[id].emoji then Emoji else if sets[id].masks then Masks else Stickers;
        if !sets[id].archived && kind == thatKind {
          sets := sets[id := sets[id].(installed := false)];
        }
      }
    }

    method BuildOrder(kind: Kind, order: seq<SetId>, removed: seq<SetId>, now: int,
      ghost sets0: Sets, ghost sent0: seq<Sent>, ghost net0: Net) returns (ghost sent: seq<Sent>)
      requires sets == ClearedSets(RemovedSets(sets0, removed), kind)
      requires SentRight(sets0, [], removed, removed, sent0) && net == SendAll(net0, kind, order, sent0)
      modifies this`sets, this`orders, this`net
      ensures sets == OrderedSets(ClearedSets(RemovedSets(sets0, removed), kind), order, removed, now)
      ensures orders == old(orders)[kind := SavedOrder(sets0, order, removed)]
      ensures SentRight(sets0, order, removed, removed, sent)
      ensures net == SendAll(net0, kind, order, sent)
    {
      hide RemovedSets, SentRight, OrderedSets, ClearedSets, SavedOrder;
      ghost var base := sets;
      sent := sent0;
      NothingOrdered(sets0, base, removed, now);
      var built: seq<SetId> := [];
      var i := 0;
      while i < |order|
        invariant 0 <= i <= |order|
        invariant sets == OrderedSets(base, order[..i], removed, now)
        invariant built == SavedOrder(sets0, order[..i], removed)
        invariant SentRight(sets0, order[..i], removed, removed, sent)
        invariant net == SendAll(net0, kind, order, sent) && orders == old(orders)
      {
        var id := order[i];
        ghost var before := sets;
        assert order[..i + 1] == order[..i] + [id];
        OrderPass(sets0, kind, order[..i], removed, now, id);
        InstallStepRight(sets0, order[..i], removed, sent, kind, now, id);
        i := i + 1;
        if id !in sets {
          assert sent + [] == sent;
          continue;
        }
        var s := sets[id];
        if s.archived && id !in removed {
          SendAllMore(net0, kind, order, sent, [Act(Install(id))]);
          SendDisenable(kind, order, Install(id));
          sent := sent + [Act(Install(id))];
          s := s.(archived := false);
        } else {
          assert sent + [] == sent;
        }
        built := built + [id];
        s := s.(installed := true);
        if s.installDate == 0 {
          s := s.(installDate := now);
        }
        sets := sets[id := s];
      }
      assert order[..i] == order && orders == old(orders);
      orders := orders[kind := built];
    }

    method Prune()
      modifies this`sets
      ensures sets == map id | id in old(sets) && Keep(old(sets)[id]) :: old(sets)[id]
    {
      ghost var before := sets;
      var todo := sets.Keys;
      while todo != {}
        invariant todo <= before.Keys
        invariant sets == map id | id in before && (id in todo || Keep(before[id])) :: before[id]
      {
        var id := Pick(todo);
        todo := todo - {id};
        var s := sets[id];
        if !(s.featured || s.installed || s.archived || s.special || s.emoji || s.locked > 0) {
          sets := sets - {id};
        }
      }
    }

    method SaveStickerSets(kind: Kind, localOrder: seq<SetId>, localRemoved: seq<SetId>, now: int)
      returns (ghost sent: seq<Sent>)
      modifies this
      ensures sets == SavedSets(old(sets), kind, localOrder, localRemoved, now)
      ensures kind in orders && orders[kind] == SavedOrder(old(sets), localOrder, localRemoved)
      ensures forall k :: k in old(orders) && k != kind ==> k in orders && orders[k] == old(orders)[k]
      ensures recent == SavedRecent(old(recent), old(sets), localRemoved)
      ensures SentRight(old(sets), localOrder, localRemoved, localRemoved, sent)
      ensures net == Saved(old(net), kind, localOrder, sent)
      ensures Inv(old(net)) ==>
        OnWire(old(sets), localOrder, localRemoved, kind, old(net.nextRequest), net)
    {
      hide RemovedSets, SentRight, OrderedSets, ClearedSets, SavedOrder, SavedSets, SavedRecent, OnWire, Inv;
      ghost var sets0, start := sets, net;
      CancelPrevious(kind, localOrder);
      ghost var net0 := net;
      sent := RemoveSets(kind, localOrder, localRemoved);
      ClearInstalled(kind);
      sent := BuildOrder(kind, localOrder, localRemoved, now, sets0, sent, net0);
      PassesCompose(sets0, kind, localOrder, localRemoved, now);
      Prune();
      if At(net, kind).disenable == {} {
        StickersSaveOrder(kind, localOrder);
      }
      if Inv(start) {
        SavedOnWire(sets0, start, kind, localOrder, localRemoved, sent);
      }
    }
  }

  /** What the network holds after a save whose requests are numbered from `base` on: for each
      set its installs and uninstalls, of this kind and order and of no earlier save, and the
      clearings of the two cloud packs. */
  ghost predicate OnWire(sets: Sets, order: seq<SetId>, removed: seq<SetId>, kind: Kind, base: ReqId, net: Net)
  {
    && (forall id ::
          |Wire(net, 0, Disenable(kind, order, Install(id)))| == if ToInstall(sets, order, removed, id) then 1 else 0)
    && (forall id :: |Wire(net, 0, Disenable(kind, order, Uninstall(id)))| == Uninstalls(sets, removed, id))
    && |Wire(net, base, ClearRecent(false))| == multiset(removed)[CLOUD_RECENT]
    && |Wire(net, base, ClearRecent(true))| == multiset(removed)[CLOUD_RECENT_ATTACHED]
  }

  lemma SavedOnWire(sets: Sets, net: Net, kind: Kind, order: seq<SetId>, removed: seq<SetId>, sent: seq<Sent>)
    requires Inv(net) && SentRight(sets, order, removed, removed, sent)
    ensures OnWire(sets, order, removed, kind, net.nextRequest, Saved(net, kind, order, sent))
  {
    hide Inv, Saved, ToInstall, Uninstalls, Wire;
    forall x
      ensures |Wire(Saved(net, kind, order, sent), net.nextRequest, Carrier(kind, order, x))| == multiset(sent)[x]
      ensures x.Act? ==> |Wire(Saved(net, kind, order, sent), 0, Carrier(kind, order, x))| == multiset(sent)[x]
    {
      SavedWire(net, kind, order, sent, x);
    }
    assert Carrier(kind, order, Clear(false)) == ClearRecent(false);
    assert Carrier(kind, order, Clear(true)) == ClearRecent(true);
    forall id
      ensures Carrier(kind, order, Act(Install(id))) == Disenable(kind, order, Install(id))
      ensures Carrier(kind, order, Act(Uninstall(id))) == Disenable(kind, order, Uninstall(id))
    {
    }
  }

  lemma NothingOrdered(sets: Sets, base: Sets, removed: seq<SetId>, now: int)
    ensures OrderedSets(base, [], removed, now) == base && SavedOrder(sets, [], removed) == []
  {
  }

  /** One position of the ordering pass, on the store and on the order. */
  lemma OrderPass(sets: Sets, kind: Kind, order: seq<SetId>, removed: seq<SetId>, now: int, x: SetId)
    ensures var base := ClearedSets(RemovedSets(sets, removed), kind);
      var before := OrderedSets(base, order, removed, now);
      && OrderedSets(base, order + [x], removed, now) == (if x !in before then before else before[x := before[x].(
           archived := before[x].archived && x in removed, installed := true,
           installDate := if before[x].installDate == 0 then now else before[x].installDate)])
      && SavedOrder(sets, order + [x], removed) == SavedOrder(sets, order, removed) + if x in before then [x] else []
  {
    hide CloudRemoved;
    var base := ClearedSets(RemovedSets(sets, removed), kind);
    if x in base {
      OrderStepIs(base, order, removed, now, x);
    } else {
      OrderSkipIs(base, order, removed, now, x);
    }
    assert (order + [x])[..|order|] == order;
    assert x in base <==> Survives(sets, removed, x);
    assert SavedOrder(sets, order, removed) + [] == SavedOrder(sets, order, removed);
  }

  lemma WithoutFirst(kept: seq<Recent>, rest: seq<Recent>, gone: set<DocId>)
    requires rest != []
    ensures rest[0].doc in gone ==> kept + Without(rest, gone) == kept + Without(rest[1..], gone)
    ensures rest[0].doc !in gone ==> kept + Without(rest, gone) == kept + [rest[0]] + Without(rest[1..], gone)
  {
    var x, left, tail := [rest[0]], Without(rest, gone), Without(rest[1..], gone);
    if rest[0].doc in gone {
      assert left == [] + tail == tail;
    } else {
      assert left == x + tail;
      assert kept + (x + tail) == kept + x + tail;
    }
  }

  ghost predicate OthersKept(kind: Kind, orders: map<Kind, seq<SetId>>, orders': map<Kind, seq<SetId>>)
  {
    orders'.Keys == orders.Keys && forall k :: k in orders && k != kind ==> orders'[k] == orders[k]
  }

  lemma NothingRemoved(sets: Sets, recent: seq<Recent>, removed: seq<SetId>)
    ensures RemovedSets(sets, []) == sets && SavedRecent(recent, sets, []) == recent
    ensures SentRight(sets, [], [], removed, [])
  {
    assert GoneDocs(sets, []) == {};
    WithoutNothing(recent);
    NothingSent(sets, removed);
    assert forall id :: id in sets ==> Survives(sets, [], id);
    hide SentRight, Survives, GoneDocs, CloudRemoved;
  }

  lemma NothingSent(sets: Sets, removed: seq<SetId>)
    ensures SentRight(sets, [], [], removed, [])
  {
    var none: seq<Sent> := [];
    assert multiset(none) == multiset{};
  }

  lemma SendAllMore(net: Net, kind: Kind, order: seq<SetId>, sent: seq<Sent>, step: seq<Sent>)
    requires |step| <= 1
    ensures SendAll(net, kind, order, sent + step)
         == if step == [] then SendAll(net, kind, order, sent)
           else SendOne(SendAll(net, kind, order, sent), kind, order, step[0])
  {
    if step == [] {
      assert sent + step == sent;
    } else {
      assert (sent + step)[..|sent|] == sent;
    }
  }
}
