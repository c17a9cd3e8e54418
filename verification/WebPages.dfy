/** The two-pass web-page resolver: pages are first given temporary negative request
    numbers, then one request is sent per channel (and one for everything else). */
module WebPages {
  import opened Collections

  type Page = nat
  type MsgId = int
  type ReqId = nat

  datatype Chat = Common | Channel(id: nat)
  datatype Item = Item(chat: Chat, id: MsgId)
  datatype Flight = Flight(chat: Chat, ids: seq<MsgId>)

  /** What the resolver asks the session about its pages. */
  datatype World = World(now: int, till: Page -> int, item: Page -> Option<Item>)

  /** `lost` records requests that failed: the source installs no failure handler. */
  datatype State = State(pending: map<Page, int>, inflight: map<ReqId, Flight>, nextRequest: ReqId, lost: set<ReqId>)

  const INT_MAX := 0x7FFF_FFFF

  predicate Idle(s: State, p: Page)
  {
    p in s.pending && s.pending[p] <= 0
  }

  predicate Due(s: State, w: World, p: Page)
  {
    Idle(s, p) && w.till(p) <= w.now && w.item(p).Some?
  }

  /** Request r was sent in this pass, to the page's own chat, and asks for its message. */
  ghost predicate SentFor(s: State, s': State, w: World, p: Page, r: int)
  {
    && s.nextRequest <= r < s'.nextRequest && r in s'.inflight
    && w.item(p).Some? && s'.inflight[r].chat == w.item(p).value.chat && w.item(p).value.id in s'.inflight[r].ids
  }

  ghost predicate AsksOnlyDue(s: State, w: World, f: Flight)
  {
    f.ids != [] && forall id :: id in f.ids ==> exists p :: Due(s, w, p) && w.item(p) == Some(Item(f.chat, id))
  }

  ghost predicate Resolved(s: State, s': State, w: World)
  {
    && s'.pending.Keys == s.pending.Keys && s'.lost == s.lost && s'.nextRequest >= s.nextRequest
    && (forall p :: p in s.pending && !Due(s, w, p) ==> s'.pending[p] == s.pending[p])
    && (forall p :: Due(s, w, p) ==> SentFor(s, s', w, p, s'.pending[p]))
    && (forall r :: r in s.inflight ==> r in s'.inflight && s'.inflight[r] == s.inflight[r])
    && (forall r :: r in s'.inflight && r !in s.inflight ==>
          s.nextRequest <= r < s'.nextRequest && AsksOnlyDue(s, w, s'.inflight[r]))
    && (forall r, q ::
          (r in s'.inflight && q in s'.inflight && r !in s.inflight && q !in s.inflight
            && s'.inflight[r].chat == s'.inflight[q].chat) ==> r == q)
  }

  predicate NotYetDue(s: State, w: World, p: Page)
  {
    Idle(s, p) && w.till(p) > w.now
  }

  /** The delay before the next pass: the earliest of `pages` not due yet, else INT_MAX. */
  ghost predicate EarliestLeft(s: State, w: World, pages: set<Page>, m: int)
  {
    && m <= INT_MAX
    && (forall p :: p in pages && NotYetDue(s, w, p) ==> m <= w.till(p) - w.now)
    && (m < INT_MAX ==> exists p :: p in pages && NotYetDue(s, w, p) && m == w.till(p) - w.now)
  }

  datatype Event =
    | Request(p: Page)
    | Clear(p: Page)
    | ClearAll
    | Resolve(w: World)
    | Got(r: ReqId)
    | Lose(r: ReqId)

  function Dropped(pending: map<Page, int>, r: ReqId): map<Page, int>
  {
    map p | p in pending && pending[p] != r :: pending[p]
  }

  ghost predicate Step(s: State, e: Event, s': State)
  {
    match e
    case Request(p) => s' == if p in s.pending then s else s.(pending := s.pending[p := 0])
    case Clear(p) => s' == s.(pending := s.pending - {p})
    case ClearAll => s' == s.(pending := map[])
    case Resolve(w) => Resolved(s, s', w)
    case Got(r) => r in s.inflight && s' == s.(pending := Dropped(s.pending, r), inflight := s.inflight - {r})
    case Lose(r) => r in s.inflight && s' == s.(inflight := s.inflight - {r}, lost := s.lost + {r})
  }

  const START := State(map[], map[], 1, {})

  /** No temporary number is left, and a positive one names a request that is in
      flight or was lost. */
  ghost predicate Inv(s: State)
  {
    && s.nextRequest > 0
    && (forall r :: r in s.inflight ==> 0 < r < s.nextRequest)
    && (forall r :: r in s.lost ==> 0 < r < s.nextRequest && r !in s.inflight)
    && (forall p :: p in s.pending ==> s.pending[p] >= 0)
    && (forall p :: p in s.pending && s.pending[p] > 0 ==> s.pending[p] in s.inflight || s.pending[p] in s.lost)
  }

  ghost predicate IsRun(states: seq<State>, events: seq<Event>)
  {
    && |states| == |events| + 1 && states[0] == START
    && forall i :: 0 <= i < |events| ==> Step(states[i], events[i], states[i + 1])
  }

  lemma StepInv(s: State, e: Event, s': State)
    requires Inv(s) && Step(s, e, s')
    ensures Inv(s')
  {
  }

  lemma {:induction false} RunInv(states: seq<State>, events: seq<Event>)
    requires IsRun(states, events)
    ensures Inv(states[|events|])
    ensures var s := states[|events|];
      forall p :: p in s.pending ==> s.pending[p] == 0 || s.pending[p] in s.inflight || s.pending[p] in s.lost
  {
    if events != [] {
      var n := |events| - 1;
      RunInv(states[..n + 1], events[..n]);
      StepInv(states[n], events[n], states[n + 1]);
    }
  }

  /** A page whose request failed is never asked for again: through every continuation
      that does not clear it, it keeps the number of the dead request. */
  lemma {:induction false} LostStaysStuck(states: seq<State>, events: seq<Event>, p: Page)
    requires |states| == |events| + 1 && Inv(states[0])
    requires forall i :: 0 <= i < |events| ==> Step(states[i], events[i], states[i + 1])
    requires forall i :: 0 <= i < |events| ==> events[i] != Clear(p) && events[i] != ClearAll
    requires p in states[0].pending && states[0].pending[p] in states[0].lost
    ensures var s := states[|events|]; p in s.pending && s.pending[p] == states[0].pending[p] && s.pending[p] in s.lost
  {
    if events != [] {
      StepInv(states[0], events[0], states[1]);
      assert Step(states[0], events[0], states[1]);
      LostStaysStuck(states[1..], events[1..], p);
    }
  }

  /** And that happens: a page is asked for, the pass sends its request, the request fails. */
  lemma PageGetsLost(p: Page, item: Item) returns (states: seq<State>, events: seq<Event>)
    ensures IsRun(states, events)
    ensures var s := states[|events|]; p in s.pending && s.pending[p] in s.lost
  {
    var w := World(1, _ => 1, _ => Some(item));
    var s1 := START.(pending := map[p := 0]);
    var s2 := State(map[p := 1], map[1 := Flight(item.chat, [item.id])], 2, {});
    var s3 := State(map[p := 1], map[], 2, {1});
    assert Due(s1, w, p) && Item(item.chat, item.id) == item;
    assert forall id :: id in [item.id] ==> id == item.id;
    assert AsksOnlyDue(s1, w, Flight(item.chat, [item.id]));
    assert s2.inflight - {1} == map[];
    states, events := [START, s1, s2, s3], [Request(p), Resolve(w), Lose(1)];
    assert Step(states[0], events[0], states[1]);
    assert Step(states[1], events[1], states[2]);
    assert Step(states[2], events[2], states[3]);
  }

  /** A page asked for is pending afterwards; nothing else changes. */
  lemma RequestAdds(s: State, p: Page, s': State)
    requires Step(s, Request(p), s')
    ensures p in s'.pending && s'.pending[p] == (if p in s.pending then s.pending[p] else 0)
    ensures s'.inflight == s.inflight && forall q :: q != p ==>
      (q in s'.pending <==> q in s.pending) && (q in s.pending ==> s'.pending[q] == s.pending[q])
  {
  }

  /** A reply takes away exactly the pages that wait for its request. */
  lemma GotExact(s: State, r: ReqId, s': State, p: Page)
    requires Step(s, Got(r), s')
    ensures r !in s'.inflight && (p in s'.pending <==> p in s.pending && s.pending[p] != r)
    ensures p in s'.pending ==> s'.pending[p] == s.pending[p]
  {
  }

  // ----- the timer

  /** `callOnce` for a new page, where `timer` is the moment a running timer fires, unless it
      fires before the page is due anyway. */
  function Armed(timer: Option<int>, clock: int, left: int): Option<int>
  {
    if timer.None? || left <= timer.value - clock then Some(clock + (if left < 0 then 0 else left) + 1) else timer
  }

  /** A page just asked for is not waited for longer than it takes to become due. */
  lemma ArmedInTime(timer: Option<int>, clock: int, left: int)
    ensures var t := Armed(timer, clock, left);
      t.Some? && (left >= 0 ==> t.value <= clock + left + 1) && (left < 0 ==> t.value <= clock + 1)
  {
  }

  /** After a pass at the moment `clock` the timer is set for the earliest page left, at most
      a day ahead. */
  ghost predicate TimerSet(s: State, w: World, clock: int, before: Option<int>, after: Option<int>)
  {
    exists m :: EarliestLeft(s, w, s.pending.Keys, m)
      && after == if m < INT_MAX then Some(clock + (if m < 86400 then m else 86400) * 1000) else before
  }

  /** A pass started by the timer leaves it off exactly when each page it leaves without a
      request was due and no message with it was found: those pages are forgotten. */
  lemma ForgottenExactlyWhen(s: State, s': State, w: World, clock: int, after: Option<int>)
    requires Inv(s) && Resolved(s, s', w) && TimerSet(s, w, clock, None, after)
    requires w.now > 0 && forall q :: q in s.pending ==> w.till(q) <= INT_MAX
    ensures after.None? <==>
      forall p :: p in s'.pending && s'.pending[p] == 0 ==> w.till(p) <= w.now && w.item(p).None?
  {
    var m :| EarliestLeft(s, w, s.pending.Keys, m)
      && after == if m < INT_MAX then Some(clock + (if m < 86400 then m else 86400) * 1000) else None;
    forall p | p in s'.pending && s'.pending[p] == 0
      ensures NotYetDue(s, w, p) || (w.till(p) <= w.now && w.item(p).None?)
    {
      assert !Due(s, w, p);
      assert s'.pending[p] == s.pending[p];
    }
    forall p | p in s.pending && NotYetDue(s, w, p)
      ensures p in s'.pending && s'.pending[p] == 0 && w.till(p) > w.now
    {
      assert !Due(s, w, p);
      assert s'.pending[p] == s.pending[p];
    }
  }

  /** And that happens: a page is asked for, no message with it is found when it is due, and
      the pass leaves it there with no request and no timer. */
  lemma PageGetsForgotten(p: Page, clock: int) returns (states: seq<State>, events: seq<Event>, w: World)
    ensures IsRun(states, events) && events == [Request(p), Resolve(w)]
    ensures p in states[2].pending && states[2].pending[p] == 0
    ensures TimerSet(states[1], w, clock, None, None)
  {
    w := World(1, _ => 1, _ => None);
    var s := START.(pending := map[p := 0]);
    states, events := [START, s, s], [Request(p), Resolve(w)];
    assert Resolved(s, s, w);
    assert Step(states[0], events[0], states[1]) && Step(states[1], events[1], states[2]);
    assert EarliestLeft(s, w, s.pending.Keys, INT_MAX);
  }

  // ----- the code

  /** An index into the requests by channel, and the message ids collected for it. */
  datatype Slot = Slot(index: nat, ids: seq<MsgId>)

  /** `temp_req_id = -index - 2`; -1 stands for everything that is not a channel. */
  function TempId(index: nat): int { -(index as int) - 2 }

  class ApiWrap {
    var pending: map<Page, int>
    var inflight: map<ReqId, Flight>
    var nextRequest: ReqId
    ghost var lost: set<ReqId>
    var timer: Option<int>    // the moment it fires

    ghost function St(): State
      reads this
    {
      State(pending, inflight, nextRequest, lost)
    }

    constructor ()
      ensures St() == START
    {
      pending, inflight, nextRequest, lost, timer := map[], map[], 1, {}, None;
    }

    method Send(flight: Flight) returns (r: ReqId)
      modifies this`inflight, this`nextRequest
      ensures r == old(nextRequest) && nextRequest == r + 1
      ensures inflight == old(inflight)[r := flight]
    {
      r := nextRequest;
      inflight := inflight[r := flight];
      nextRequest := nextRequest + 1;
    }

    /** The request of one channel. */
    method SendChannel(c: nat, slot: Slot, reqs: seq<int>, ghost s: State, ghost ids: seq<MsgId>, ghost requestId: int,
      ghost byChannel: map<nat, Slot>, ghost done: set<nat>) returns (reqs': seq<int>)
      requires FreshAbove(s) && FreshAbove(St()) && GroupsSent(s, St(), ids, requestId, byChannel, done, reqs)
      requires c in byChannel && c !in done && byChannel[c] == slot
      modifies this`inflight, this`nextRequest
      ensures FreshAbove(St()) && GroupsSent(s, St(), ids, requestId, byChannel, done + {c}, reqs')
    {
      hide GroupsSent, FreshAbove;
      ChannelSent(s, St(), ids, requestId, byChannel, done, reqs, c);
      var r := Send(Flight(Channel(c), slot.ids));
      reqs' := reqs[slot.index := r];
    }

    /** One request for the common group, one for each channel. */
    method SendGroups(ids: seq<MsgId>, byChannel: map<nat, Slot>) returns (requestId: int, reqsByIndex: seq<int>)
      requires FreshAbove(St()) && Indexed(byChannel)
      modifies this`inflight, this`nextRequest
      ensures GroupsSent(old(St()), St(), ids, requestId, byChannel, byChannel.Keys, reqsByIndex)
    {
      hide GroupsSent, FreshAbove, Indexed;
      ghost var s := St();
      requestId := 0;
      if ids != [] {
        requestId := Send(Flight(Common, ids));
      }
      reqsByIndex := seq(|byChannel|, _ => 0);
      CommonSent(s, St(), ids, requestId, byChannel, reqsByIndex);
      var todo := byChannel.Keys;
      ghost var done: set<nat> := {};
      while todo != {}
        invariant todo <= byChannel.Keys && done == byChannel.Keys - todo && FreshAbove(St())
        invariant GroupsSent(s, St(), ids, requestId, byChannel, done, reqsByIndex)
      {
        var c := Pick(todo);
        todo := todo - {c};
        reqsByIndex := SendChannel(c, byChannel[c], reqsByIndex, s, ids, requestId, byChannel, done);
        done := done + {c};
      }
      assert done == byChannel.Keys;
    }

    method ResolveWebPages(w: World, clock: int)
      requires Inv(St())
      modifies this
      ensures Resolved(old(St()), St(), w)
      ensures Inv(St())
      ensures TimerSet(old(St()), w, clock, old(timer), timer)
    {
      hide Inv, Step, Resolved, Grouped, GroupsSent, FreshAbove, Indexed, TimerSet, EarliestLeft, Final, TempInRange;
      ghost var s := St();
      var ids, byChannel, m;
      pending, ids, byChannel, m := Group(pending, w, s);
      GroupedFacts(s, St(), w, ids, byChannel);
      ghost var temporary := pending;
      var requestId, reqsByIndex := SendGroups(ids, byChannel);
      GroupsSentFacts(s, temporary, St(), ids, requestId, byChannel, reqsByIndex);
      if requestId != 0 || reqsByIndex != [] {
        pending := Renumber(pending, requestId, reqsByIndex);
      }
      if m < INT_MAX {
        timer := Some(clock + (if m < 86400 then m else 86400) * 1000);
      }
      TimerIs(s, w, clock, m, old(timer), timer);
      AllResolved(s, St(), w, temporary, ids, requestId, byChannel, reqsByIndex);
      ResolveStep(s, w, St());
      StepInv(s, Resolve(w), St());
    }

    method RequestWebPageDelayed(p: Page, failed: bool, pendingTill: int, now: int, clock: int)
      modifies this`pending, this`timer
      ensures failed || pendingTill == 0 ==> St() == old(St()) && timer == old(timer)
      ensures !failed && pendingTill != 0 ==>
        Step(old(St()), Request(p), St()) && timer == Armed(old(timer), clock, (pendingTill - now) * 1000)
    {
      if failed || pendingTill == 0 {
        return;
      }
      if p !in pending {
        pending := pending[p := 0];
      }
      var left := (pendingTill - now) * 1000;
      if timer.None? || left <= timer.value - clock {
        timer := Some(clock + (if left < 0 then 0 else left) + 1);
      }
    }

    method ClearWebPageRequest(p: Page)
      modifies this`pending, this`timer
      ensures Step(old(St()), Clear(p), St())
      ensures timer == if pending == map[] then None else old(timer)
    {
      pending := pending - {p};
      if pending == map[] && timer.Some? {
        timer := None;
      }
    }

    method ClearWebPageRequests()
      modifies this`pending, this`timer
      ensures Step(old(St()), ClearAll, St()) && timer == None
    {
      pending, timer := map[], None;
    }

    /** A reply to request r; the pages it erases are told apart by `failedPages`. */
    method GotWebPages(r: ReqId, till: Page -> int) returns (failedPages: set<Page>)
      requires r in inflight
      modifies this
      ensures Step(old(St()), Got(r), St())
      ensures failedPages == set p | p in old(pending) && old(pending)[p] == r && till(p) > 0
    {
      inflight := inflight - {r};
      failedPages := {};
      ghost var was := pending;
      var todo := pending.Keys;
      while todo != {}
        invariant todo <= was.Keys
        invariant pending == map p | p in was && (p in todo || was[p] != r) :: was[p]
        invariant failedPages == set p | p in was.Keys - todo && was[p] == r && till(p) > 0
        invariant inflight == old(inflight) - {r} && nextRequest == old(nextRequest) && lost == old(lost)
      {
        var p := Pick(todo);
        todo := todo - {p};
        if pending[p] == r {
          if till(p) > 0 {
            failedPages := failedPages + {p};
          }
          pending := pending - {p};
        }
      }
    }
  }

  lemma TimerIs(s: State, w: World, clock: int, m: int, before: Option<int>, after: Option<int>)
    requires EarliestLeft(s, w, s.pending.Keys, m)
    requires after == if m < INT_MAX then Some(clock + (if m < 86400 then m else 86400) * 1000) else before
    ensures TimerSet(s, w, clock, before, after)
  {
  }

  lemma ResolveStep(s: State, w: World, s': State)
    requires Resolved(s, s', w)
    ensures Step(s, Resolve(w), s')
  {
  }

  lemma GroupedFacts(s: State, s1: State, w: World, ids: seq<MsgId>, byChannel: map<nat, Slot>)
    requires Inv(s) && s1 == s.(pending := s1.pending) && Grouped(s, w, {}, s1.pending, ids, byChannel)
    ensures Indexed(byChannel) && FreshAbove(s1) && s1.pending.Keys == s.pending.Keys
    ensures forall p :: p in s1.pending ==> TempInRange(s1.pending[p], |byChannel|)
  {
    forall p | p in s1.pending
      ensures TempInRange(s1.pending[p], |byChannel|)
    {
      if Due(s, w, p) {
        assert InGroup(w.item(p).value, s1.pending[p], ids, byChannel);
      }
    }
  }

  lemma GroupsSentFacts(s: State, temporary: map<Page, int>, s2: State, ids: seq<MsgId>, requestId: int,
    byChannel: map<nat, Slot>, reqs: seq<int>)
    requires GroupsSent(s.(pending := temporary), s2, ids, requestId, byChannel, byChannel.Keys, reqs)
    ensures |reqs| == |byChannel| && s2.pending == temporary && s2.lost == s.lost
  {
  }

  predicate FreshAbove(s: State)
  {
    s.nextRequest > 0 && forall r :: r in s.inflight ==> r < s.nextRequest
  }

  predicate Indexed(byChannel: map<nat, Slot>)
  {
    && (forall c :: c in byChannel ==> byChannel[c].index < |byChannel|)
    && (forall c, d :: c in byChannel && d in byChannel && byChannel[c].index == byChannel[d].index ==> c == d)
  }

  ghost predicate NewFlight(s: State, s': State, r: int, f: Flight)
  {
    s.nextRequest <= r < s'.nextRequest && r in s'.inflight && s'.inflight[r] == f
  }

  /** The second pass, with the channels of `done` behind it. */
  ghost predicate GroupsSent(s: State, s': State, ids: seq<MsgId>, requestId: int,
    byChannel: map<nat, Slot>, done: set<nat>, reqs: seq<int>)
  {
    && s'.nextRequest >= s.nextRequest && s'.pending == s.pending && s'.lost == s.lost
    && Indexed(byChannel) && done <= byChannel.Keys && |reqs| == |byChannel|
    && (if ids == [] then requestId == 0 else NewFlight(s, s', requestId, Flight(Common, ids)))
    && (forall c :: c in done ==> NewFlight(s, s', reqs[byChannel[c].index], Flight(Channel(c), byChannel[c].ids)))
    && (forall r :: r in s.inflight ==> r in s'.inflight && s'.inflight[r] == s.inflight[r])
    && (forall r :: r in s'.inflight && r !in s.inflight ==>
          match s'.inflight[r].chat
          case Common => ids != [] && r == requestId
          case Channel(c) => c in done && r == reqs[byChannel[c].index])
  }

  lemma CommonSent(s: State, s1: State, ids: seq<MsgId>, requestId: int, byChannel: map<nat, Slot>, reqs: seq<int>)
    requires FreshAbove(s) && Indexed(byChannel) && |reqs| == |byChannel|
    requires ids == [] ==> requestId == 0 && s1 == s
    requires ids != [] ==> requestId == s.nextRequest
    requires ids != [] ==>
      s1 == s.(inflight := s.inflight[s.nextRequest := Flight(Common, ids)], nextRequest := s.nextRequest + 1)
    ensures GroupsSent(s, s1, ids, requestId, byChannel, {}, reqs) && FreshAbove(s1)
  {
  }

  lemma ChannelSent(s: State, s1: State, ids: seq<MsgId>, requestId: int,
    byChannel: map<nat, Slot>, done: set<nat>, reqs: seq<int>, c: nat)
    requires FreshAbove(s) && FreshAbove(s1) && GroupsSent(s, s1, ids, requestId, byChannel, done, reqs)
    requires c in byChannel && c !in done
    ensures byChannel[c].index < |reqs| == |byChannel|
    ensures var r := s1.nextRequest;
      var s2 := s1.(inflight := s1.inflight[r := Flight(Channel(c), byChannel[c].ids)], nextRequest := r + 1);
      GroupsSent(s, s2, ids, requestId, byChannel, done + {c}, reqs[byChannel[c].index := r]) && FreshAbove(s2)
  {
    var r := s1.nextRequest;
    var s2 := s1.(inflight := s1.inflight[r := Flight(Channel(c), byChannel[c].ids)], nextRequest := r + 1);
    var reqs2 := reqs[byChannel[c].index := r];
    forall d | d in done
      ensures NewFlight(s, s2, reqs2[byChannel[d].index], Flight(Channel(d), byChannel[d].ids))
    {
      assert NewFlight(s, s1, reqs[byChannel[d].index], Flight(Channel(d), byChannel[d].ids));
      assert byChannel[d].index != byChannel[c].index;
    }
  }

  predicate TempInRange(x: int, n: nat)
  {
    x < -1 ==> -x - 2 < n
  }

  function Final(x: int, requestId: int, reqs: seq<int>): int
    requires TempInRange(x, |reqs|)
  {
    if x >= 0 then x else if x == -1 then requestId else reqs[-x - 2]
  }

  /** The third loop: temporary numbers become real ones. */
  method Renumber(pending: map<Page, int>, requestId: int, reqs: seq<int>) returns (pending': map<Page, int>)
    requires forall p :: p in pending ==> TempInRange(pending[p], |reqs|)
    ensures pending'.Keys == pending.Keys
    ensures forall p :: p in pending ==> pending'[p] == Final(pending[p], requestId, reqs)
  {
    pending' := pending;
    var todo := pending.Keys;
    while todo != {}
      invariant todo <= pending.Keys && pending'.Keys == pending.Keys
      invariant forall p :: p in todo ==> pending'[p] == pending[p]
      invariant forall p :: p in pending.Keys - todo ==> pending'[p] == Final(pending[p], requestId, reqs)
    {
      var p := Pick(todo);
      todo := todo - {p};
      if pending'[p] > 0 {
        continue;
      } else if pending'[p] < 0 {
        if pending'[p] == -1 {
          pending' := pending'[p := requestId];
        } else {
          pending' := pending'[p := reqs[-pending'[p] - 2]];
        }
      }
    }
  }

  /** A due page ends with the number of the one request of its group. */
  lemma DueSent(s: State, s': State, w: World, p: Page, x: int,
    ids: seq<MsgId>, requestId: int, byChannel: map<nat, Slot>, reqs: seq<int>)
    requires w.item(p).Some? && InGroup(w.item(p).value, x, ids, byChannel)
    requires GroupsSent(s, s', ids, requestId, byChannel, byChannel.Keys, reqs)
    ensures TempInRange(x, |reqs|) && (requestId != 0 || reqs != [] || x == -1)
    ensures s.nextRequest > 0 ==> requestId != 0 || reqs != []
    ensures SentFor(s, s', w, p, Final(x, requestId, reqs))
  {
    match w.item(p).value.chat {
      case Common =>
      case Channel(c) =>
        assert NewFlight(s, s', reqs[byChannel[c].index], Flight(Channel(c), byChannel[c].ids));
    }
  }

  lemma FlightAsks(s: State, s': State, w: World, temporary: map<Page, int>, r: ReqId,
    ids: seq<MsgId>, requestId: int, byChannel: map<nat, Slot>, reqs: seq<int>)
    requires Grouped(s, w, {}, temporary, ids, byChannel)
    requires GroupsSent(s.(pending := temporary), s', ids, requestId, byChannel, byChannel.Keys, reqs)
    requires r in s'.inflight && r !in s.inflight
    ensures s.nextRequest <= r < s'.nextRequest && AsksOnlyDue(s, w, s'.inflight[r])
  {
    hide AsksOnlyDue, InGroup;
    match s'.inflight[r].chat {
      case Common =>
      case Channel(c) =>
        assert NewFlight(s.(pending := temporary), s', reqs[byChannel[c].index], Flight(Channel(c), byChannel[c].ids));
    }
  }

  lemma OnePerChat(s: State, s': State, ids: seq<MsgId>, requestId: int, byChannel: map<nat, Slot>, reqs: seq<int>)
    requires GroupsSent(s, s', ids, requestId, byChannel, byChannel.Keys, reqs)
    ensures forall r, q ::
      (r in s'.inflight && q in s'.inflight && r !in s.inflight && q !in s.inflight
        && s'.inflight[r].chat == s'.inflight[q].chat) ==> r == q
  {
    hide NewFlight, Indexed;
  }

  lemma AllResolved(s: State, s': State, w: World, temporary: map<Page, int>,
    ids: seq<MsgId>, requestId: int, byChannel: map<nat, Slot>, reqs: seq<int>)
    requires Inv(s) && Grouped(s, w, {}, temporary, ids, byChannel)
    requires GroupsSent(s.(pending := temporary), s'.(pending := temporary), ids, requestId, byChannel,
      byChannel.Keys, reqs)
    requires s'.pending.Keys == temporary.Keys
    requires requestId != 0 || reqs != [] ==>
        forall p :: p in temporary ==>
          TempInRange(temporary[p], |reqs|) && s'.pending[p] == Final(temporary[p], requestId, reqs)
    requires requestId == 0 && reqs == [] ==> s'.pending == temporary
    ensures Resolved(s, s', w)
  {
    hide Grouped, SentFor, AsksOnlyDue, InGroup, NewFlight, Indexed;
    var t, t' := s.(pending := temporary), s'.(pending := temporary);
    NotDueKept(s, w, temporary, ids, byChannel);
    OnePerChat(t, t', ids, requestId, byChannel, reqs);
    forall p | Due(s, w, p)
      ensures SentFor(s, s', w, p, s'.pending[p])
    {
      DueInGroup(s, w, temporary, ids, byChannel, p);
      DueSent(t, t', w, p, temporary[p], ids, requestId, byChannel, reqs);
      SameSent(s, s', t, t', w, p, s'.pending[p]);
    }
    forall r | r in s'.inflight && r !in s.inflight
      ensures s.nextRequest <= r < s'.nextRequest && AsksOnlyDue(s, w, s'.inflight[r])
    {
      FlightAsks(s, t', w, temporary, r, ids, requestId, byChannel, reqs);
    }
    hide Due;
  }

  lemma DueInGroup(s: State, w: World, temporary: map<Page, int>, ids: seq<MsgId>, byChannel: map<nat, Slot>, p: Page)
    requires Grouped(s, w, {}, temporary, ids, byChannel) && Due(s, w, p)
    ensures p in temporary && InGroup(w.item(p).value, temporary[p], ids, byChannel)
  {
  }

  lemma SameSent(s: State, s': State, t: State, t': State, w: World, p: Page, r: int)
    requires t.nextRequest == s.nextRequest && t'.nextRequest == s'.nextRequest && t'.inflight == s'.inflight
    requires SentFor(t, t', w, p, r)
    ensures SentFor(s, s', w, p, r)
  {
  }

  lemma NotDueKept(s: State, w: World, temporary: map<Page, int>, ids: seq<MsgId>, byChannel: map<nat, Slot>)
    requires Inv(s) && Grouped(s, w, {}, temporary, ids, byChannel)
    ensures temporary.Keys == s.pending.Keys
    ensures forall p :: p in s.pending && !Due(s, w, p) ==> temporary[p] == s.pending[p] >= 0
  {
  }

  /** The first pass, with the pages of `todo` still to visit: every due page carries the
      temporary number of its group, and the group holds its message. */
  ghost predicate Grouped(s: State, w: World, todo: set<Page>, pending: map<Page, int>, ids: seq<MsgId>,
    byChannel: map<nat, Slot>)
  {
    && PagesGrouped(s, w, todo, pending, ids, byChannel)
    && AllAskOnlyDue(s, w, byChannel)
    && (ids != [] ==> AsksOnlyDue(s, w, Flight(Common, ids)))
    && Indexed(byChannel)
  }

  ghost predicate PagesGrouped(s: State, w: World, todo: set<Page>, pending: map<Page, int>, ids: seq<MsgId>,
    byChannel: map<nat, Slot>)
  {
    && todo <= s.pending.Keys && pending.Keys == s.pending.Keys
    && (forall p :: p in s.pending && (p in todo || !Due(s, w, p)) ==> pending[p] == s.pending[p])
    && (forall p :: p in s.pending - todo && Due(s, w, p) ==> InGroup(w.item(p).value, pending[p], ids, byChannel))
  }

  lemma NothingGrouped(s: State, w: World)
    ensures Grouped(s, w, s.pending.Keys, s.pending, [], map[])
  {
  }

  /** A page that is in flight, not due, or without an item needs nothing. */
  lemma GroupedKeeps(s: State, w: World, todo: set<Page>, pending: map<Page, int>,
    ids: seq<MsgId>, byChannel: map<nat, Slot>, p: Page)
    requires Grouped(s, w, todo, pending, ids, byChannel) && p in todo
    ensures p in pending && p in s.pending && pending[p] == s.pending[p] && pending.Keys == s.pending.Keys
    ensures todo <= s.pending.Keys
    ensures !Due(s, w, p) ==> Grouped(s, w, todo - {p}, pending, ids, byChannel)
  {
  }

  lemma OneMoreDue(s: State, w: World, chat: Chat, ids: seq<MsgId>, p: Page)
    requires ids != [] ==> AsksOnlyDue(s, w, Flight(chat, ids))
    requires Due(s, w, p) && w.item(p).value.chat == chat
    ensures AsksOnlyDue(s, w, Flight(chat, ids + [w.item(p).value.id]))
  {
    var more := ids + [w.item(p).value.id];
    forall id | id in more
      ensures exists q :: Due(s, w, q) && w.item(q) == Some(Item(chat, id))
    {
      if id in ids {
      } else {
        assert Due(s, w, p) && w.item(p) == Some(Item(chat, id));
      }
    }
  }

  lemma CommonGrouped(s: State, w: World, todo: set<Page>, pending: map<Page, int>,
    ids: seq<MsgId>, byChannel: map<nat, Slot>, p: Page)
    requires Grouped(s, w, todo, pending, ids, byChannel) && p in todo && Due(s, w, p)
    requires w.item(p).value.chat == Common
    ensures Grouped(s, w, todo - {p}, pending[p := -1], ids + [w.item(p).value.id], byChannel)
  {
    OneMoreDue(s, w, Common, ids, p);
    hide AsksOnlyDue, Due;
    var pending' := pending[p := -1];
    var ids' := ids + [w.item(p).value.id];
    forall q | q in s.pending - (todo - {p}) && Due(s, w, q)
      ensures InGroup(w.item(q).value, pending'[q], ids', byChannel)
    {
      if q != p {
        assert InGroup(w.item(q).value, pending[q], ids, byChannel);
      }
    }
  }

  function SlotWith(byChannel: map<nat, Slot>, c: nat, id: MsgId): Slot
  {
    if c in byChannel then Slot(byChannel[c].index, byChannel[c].ids + [id]) else Slot(|byChannel|, [id])
  }

  lemma IndexedMore(byChannel: map<nat, Slot>, c: nat, id: MsgId)
    requires Indexed(byChannel)
    ensures Indexed(byChannel[c := SlotWith(byChannel, c, id)])
  {
  }

  lemma StillInGroup(item: Item, temp: int, ids: seq<MsgId>, byChannel: map<nat, Slot>, c: nat, id: MsgId)
    requires InGroup(item, temp, ids, byChannel)
    ensures InGroup(item, temp, ids, byChannel[c := SlotWith(byChannel, c, id)])
  {
  }

  ghost predicate AllAskOnlyDue(s: State, w: World, byChannel: map<nat, Slot>)
  {
    forall c :: c in byChannel ==> AsksOnlyDue(s, w, Flight(Channel(c), byChannel[c].ids))
  }

  lemma ChannelAsks(s: State, w: World, byChannel: map<nat, Slot>, p: Page, item: Item)
    requires AllAskOnlyDue(s, w, byChannel)
    requires Due(s, w, p) && w.item(p) == Some(item) && item.chat.Channel?
    ensures AllAskOnlyDue(s, w, byChannel[item.chat.id := SlotWith(byChannel, item.chat.id, item.id)])
  {
    var c := item.chat.id;
    OneMoreDue(s, w, Channel(c), if c in byChannel then byChannel[c].ids else [], p);
    assert [] + [item.id] == [item.id];
    hide AsksOnlyDue;
  }

  lemma ChannelPages(s: State, w: World, todo: set<Page>, pending: map<Page, int>,
    ids: seq<MsgId>, byChannel: map<nat, Slot>, p: Page, item: Item)
    requires PagesGrouped(s, w, todo, pending, ids, byChannel) && p in todo && Due(s, w, p)
    requires w.item(p) == Some(item) && item.chat.Channel?
    ensures var slot := SlotWith(byChannel, item.chat.id, item.id);
      PagesGrouped(s, w, todo - {p}, pending[p := TempId(slot.index)], ids, byChannel[item.chat.id := slot])
  {
    hide InGroup, SlotWith, TempId;
    var c := item.chat.id;
    var slot := SlotWith(byChannel, c, item.id);
    var pending' := pending[p := TempId(slot.index)];
    SlotInGroup(item, ids, byChannel);
    forall q | q in s.pending - (todo - {p}) && Due(s, w, q)
      ensures InGroup(w.item(q).value, pending'[q], ids, byChannel[c := slot])
    {
      if q != p {
        StillInGroup(w.item(q).value, pending[q], ids, byChannel, c, item.id);
      }
    }
  }

  lemma ChannelGrouped(s: State, w: World, todo: set<Page>, pending: map<Page, int>,
    ids: seq<MsgId>, byChannel: map<nat, Slot>, p: Page)
    requires Grouped(s, w, todo, pending, ids, byChannel) && p in todo && Due(s, w, p)
    requires w.item(p).value.chat.Channel?
    ensures var item := w.item(p).value; var slot := SlotWith(byChannel, item.chat.id, item.id);
      Grouped(s, w, todo - {p}, pending[p := TempId(slot.index)], ids, byChannel[item.chat.id := slot])
  {
    hide AsksOnlyDue, Indexed, InGroup, AllAskOnlyDue, SlotWith, PagesGrouped, TempId;
    var item := w.item(p).value;
    ChannelPages(s, w, todo, pending, ids, byChannel, p, item);
    ChannelAsks(s, w, byChannel, p, item);
    IndexedMore(byChannel, item.chat.id, item.id);
  }

  lemma SlotInGroup(item: Item, ids: seq<MsgId>, byChannel: map<nat, Slot>)
    requires item.chat.Channel?
    ensures var slot := SlotWith(byChannel, item.chat.id, item.id);
      InGroup(item, TempId(slot.index), ids, byChannel[item.chat.id := slot])
  {
  }

  predicate InGroup(item: Item, temp: int, ids: seq<MsgId>, byChannel: map<nat, Slot>)
  {
    match item.chat
    case Common => temp == -1 && item.id in ids
    case Channel(c) => c in byChannel && temp == TempId(byChannel[c].index) && item.id in byChannel[c].ids
  }

  /** The first pass over the pending pages. */
  method Group(start: map<Page, int>, w: World, ghost s: State)
    returns (pending: map<Page, int>, ids: seq<MsgId>, byChannel: map<nat, Slot>, m: int)
    requires s.pending == start
    ensures Grouped(s, w, {}, pending, ids, byChannel)
    ensures EarliestLeft(s, w, s.pending.Keys, m)
  {
    hide InGroup, AsksOnlyDue, Indexed, Grouped;
    pending, ids, byChannel, m := start, [], map[], INT_MAX;
    var todo := pending.Keys;
    NothingGrouped(s, w);
    while todo != {}
      invariant Grouped(s, w, todo, pending, ids, byChannel)
      invariant EarliestLeft(s, w, s.pending.Keys - todo, m)
    {
      var p := Pick(todo);
      GroupedKeeps(s, w, todo, pending, ids, byChannel, p);
      if pending[p] > 0 {
      } else if w.till(p) <= w.now {
        if w.item(p).Some? {
          var item := w.item(p).value;
          match item.chat {
            case Channel(c) =>
              ChannelGrouped(s, w, todo, pending, ids, byChannel, p);
              if c !in byChannel {
                byChannel := byChannel[c := Slot(|byChannel|, [item.id])];
              } else {
                byChannel := byChannel[c := Slot(byChannel[c].index, byChannel[c].ids + [item.id])];
              }
              pending := pending[p := TempId(byChannel[c].index)];
            case Common =>
              CommonGrouped(s, w, todo, pending, ids, byChannel, p);
              ids := ids + [item.id];
              pending := pending[p := -1];
          }
        }
      } else {
        assert NotYetDue(s, w, p);
        m := if w.till(p) - w.now < m then w.till(p) - w.now else m;
      }
      todo := todo - {p};
    }
    assert s.pending.Keys - todo == s.pending.Keys;
  }
}
