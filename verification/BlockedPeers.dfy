/** Blocking and unblocking: an opposite request replaces the entry of a peer without
    cancelling the request on the network, so a stale reply can take a newer entry. */
module BlockedPeers {
  import opened Collections

  type Peer = nat
  type ReqId = nat
  /** One registration of a callback. */
  type Token = nat

  datatype Entry = Entry(requestId: ReqId, blocking: bool, callbacks: seq<Token>)
  datatype Flight = Flight(peer: Peer, blocking: bool)
  datatype Item = Item(id: Peer, date: int)
  datatype Slice = Slice(list: seq<Item>, total: int)

  /** `waiting` and `fired` are history: where each callback is stored, and the callbacks
      already run; `reported` is the success each of those was told. */
  datatype State = State(requests: map<Peer, Entry>, slice: Option<Slice>, blocked: set<Peer>,
    inflight: map<ReqId, Flight>, nextRequest: ReqId, nextToken: Token,
    waiting: map<Token, Peer>, fired: seq<Token>, reported: map<Token, bool>)

  // ----- the steps

  /** The stored callbacks of a peer are run with `value`, its entry erased. */
  function Fired(s: State, p: Peer, value: bool): State
  {
    if p !in s.requests then s
    else
      var q := s.requests[p].callbacks;
      s.(requests := s.requests - {p}, waiting := map k | k in s.waiting && s.waiting[k] != p :: s.waiting[k],
         fired := s.fired + q, reported := s.reported + map k | k in q :: value)
  }

  /** A new request for the peer, with an entry of its own. */
  function Sent(s: State, p: Peer, blocking: bool): State
  {
    s.(inflight := s.inflight[s.nextRequest := Flight(p, blocking)], nextRequest := s.nextRequest + 1,
       requests := s.requests[p := Entry(s.nextRequest, blocking, [])])
  }

  function WithCallback(s: State, p: Peer): State
    requires p in s.requests
  {
    var e := s.requests[p];
    s.(requests := s.requests[p := e.(callbacks := e.callbacks + [s.nextToken])],
       nextToken := s.nextToken + 1, waiting := s.waiting[s.nextToken := p])
  }

  predicate AlreadySent(s: State, p: Peer, blocking: bool) { p in s.requests && s.requests[p].blocking == blocking }

  function Block(s: State, p: Peer): State
  {
    if p in s.blocked || AlreadySent(s, p, true) then s else Sent(Fired(s, p, false), p, true)
  }

  function Unblock(s: State, p: Peer, done: bool, force: bool): State
  {
    if !force && p !in s.blocked then s
    else
      var s1 := if AlreadySent(s, p, false) then s else Sent(Fired(s, p, false), p, false);
      if done then WithCallback(s1, p) else s1
  }

  function Erased(list: seq<Item>, p: Peer): seq<Item>
  {
    if list == [] then [] else if list[0].id == p then list[1..] else [list[0]] + Erased(list[1..], p)
  }

  function SliceAfter(slice: Slice, f: Flight, now: int): Slice
  {
    if f.blocking then Slice([Item(f.peer, now)] + slice.list, slice.total + 1)
    else
      var list := Erased(slice.list, f.peer);
      Slice(list, if slice.total > |list| then slice.total - 1 else slice.total)
  }

  /** A success also moves the peer; either way the peer's entry, whichever it is, is taken. */
  function Replied(s: State, r: ReqId, success: bool, now: int): State
    requires r in s.inflight
  {
    var f := s.inflight[r];
    var s1 := s.(inflight := s.inflight - {r});
    if !success then Fired(s1, f.peer, false)
    else
      Fired(s1.(blocked := if f.blocking then s.blocked + {f.peer} else s.blocked - {f.peer},
                slice := if s.slice.Some? then Some(SliceAfter(s.slice.value, f, now)) else None), f.peer, !f.blocking)
  }

  /** A reloaded list; the plain answer has no count. */
  function Loaded(s: State, count: int, list: seq<Item>): State
  {
    s.(slice := Some(Slice(list, if count < |list| then |list| else count)))
  }

  datatype Event =
    | BlockPeer(p: Peer)
    | UnblockPeer(p: Peer, done: bool, force: bool)
    | Reply(r: ReqId, success: bool, now: int)
    | Load(count: int, list: seq<Item>)
    | ServerChanged(p: Peer, isBlocked: bool)

  ghost predicate Step(s: State, e: Event, s': State)
  {
    match e
    case BlockPeer(p) => s' == Block(s, p)
    case UnblockPeer(p, done, force) => s' == Unblock(s, p, done, force)
    case Reply(r, success, now) => r in s.inflight && s' == Replied(s, r, success, now)
    case Load(count, list) => s' == Loaded(s, count, list)
    case ServerChanged(p, isBlocked) => s' == s.(blocked := if isBlocked then s.blocked + {p} else s.blocked - {p})
  }

  const START := State(map[], None, {}, map[], 1, 0, map[], [], map[])

  // ----- the invariant

  /** An entry belongs to a request still in flight for its peer; only unblocking entries
      hold callbacks. */
  ghost predicate EntryRight(s: State, p: Peer)
    requires p in s.requests
  {
    var e := s.requests[p];
    && e.requestId in s.inflight && s.inflight[e.requestId] == Flight(p, e.blocking)
    && (e.blocking ==> e.callbacks == [])
    && Distinct(e.callbacks)
    && forall k :: k in e.callbacks ==> k in s.waiting && s.waiting[k] == p
  }

  ghost predicate TokensRight(s: State)
  {
    && Distinct(s.fired)
    && (forall k :: k in s.waiting ==>
      s.waiting[k] in s.requests && k in s.requests[s.waiting[k]].callbacks && k !in s.fired)
    && (forall k: Token :: k < s.nextToken <==> k in s.waiting || k in s.fired)
    && (forall k: Token :: k in s.reported <==> k in s.fired)
  }

  ghost predicate Inv(s: State)
  {
    && (forall r :: r in s.inflight ==> r < s.nextRequest)
    && (forall p :: p in s.requests ==> EntryRight(s, p))
    && TokensRight(s)
    && (s.slice.Some? ==> s.slice.value.total >= |s.slice.value.list|)
  }

  lemma FiredTokens(s: State, p: Peer, value: bool)
    requires (forall q :: q in s.requests ==> EntryRight(s, q)) && TokensRight(s)
    ensures TokensRight(Fired(s, p, value))
  {
    if p in s.requests {
      assert EntryRight(s, p);
      var q := s.requests[p].callbacks;
      assert forall k :: k in s.waiting && s.waiting[k] == p ==> k in q;
      DistinctConcat(s.fired, q);
    }
  }

  lemma FiredEntries(s: State, p: Peer, value: bool, q: Peer)
    requires q in s.requests && q != p && EntryRight(s, q)
    ensures q in Fired(s, p, value).requests
    ensures EntryRight(Fired(s, p, value), q)
  {
  }

  lemma FiredShape(s: State, p: Peer, value: bool)
    requires forall k :: k in s.waiting ==> s.waiting[k] in s.requests
    ensures var t := Fired(s, p, value);
      && p !in t.requests && t.requests.Keys == s.requests.Keys - {p}
      && t.inflight == s.inflight && t.nextRequest == s.nextRequest && t.slice == s.slice
      && forall k :: k in t.waiting ==> t.waiting[k] != p
  {
  }

  lemma SentTokens(t: State, p: Peer, blocking: bool)
    requires TokensRight(t) && p !in t.requests
    ensures TokensRight(Sent(t, p, blocking))
  {
  }

  lemma SentInv(s: State, p: Peer, blocking: bool)
    requires Inv(s)
    ensures Inv(Sent(Fired(s, p, false), p, blocking))
  {
    var t := Fired(s, p, false);
    FiredTokens(s, p, false);
    FiredShape(s, p, false);
    SentTokens(t, p, blocking);
    hide TokensRight, Fired;
    var u := Sent(t, p, blocking);
    forall q | q in u.requests
      ensures EntryRight(u, q)
    {
      if q != p {
        assert EntryRight(s, q);
        FiredEntries(s, p, false, q);
      }
    }
    hide EntryRight;
  }

  lemma WithCallbackTokens(s: State, p: Peer)
    requires TokensRight(s) && p in s.requests
    ensures TokensRight(WithCallback(s, p)) && s.nextToken !in s.waiting
  {
    var t := WithCallback(s, p);
    forall k | k in t.waiting
      ensures t.waiting[k] in t.requests && k in t.requests[t.waiting[k]].callbacks && k !in t.fired
    {
      if k != s.nextToken {
        assert k in s.requests[s.waiting[k]].callbacks;
      }
    }
  }

  lemma WithCallbackInv(s: State, p: Peer)
    requires Inv(s) && p in s.requests && !s.requests[p].blocking
    ensures Inv(WithCallback(s, p))
  {
    var t := WithCallback(s, p);
    var e := s.requests[p];
    assert EntryRight(s, p);
    WithCallbackTokens(s, p);
    DistinctConcat(e.callbacks, [s.nextToken]);
    hide TokensRight, Distinct;
    forall q | q in t.requests
      ensures EntryRight(t, q)
    {
      assert EntryRight(s, q);
    }
    hide EntryRight;
  }

  lemma {:induction false} ErasedLength(list: seq<Item>, p: Peer)
    ensures |list| - 1 <= |Erased(list, p)| <= |list|
  {
    if list != [] {
      ErasedLength(list[1..], p);
    }
  }

  lemma RepliedInv(s: State, r: ReqId, success: bool, now: int)
    requires Inv(s) && r in s.inflight
    ensures Inv(Replied(s, r, success, now))
  {
    var f := s.inflight[r];
    var t := Replied(s, r, success, now);
    if success && s.slice.Some? {
      ErasedLength(s.slice.value.list, f.peer);
    }
    FiredTokens(s, f.peer, success && !f.blocking);
    FiredShape(s, f.peer, success && !f.blocking);
    var u := Fired(s, f.peer, success && !f.blocking);
    assert t == u.(inflight := s.inflight - {r}, blocked := t.blocked, slice := t.slice);
    SameTokens(u, t);
    hide TokensRight, Fired, Replied, Distinct;
    forall q | q in t.requests
      ensures EntryRight(t, q)
    {
      assert EntryRight(s, q);
      FiredEntries(s, f.peer, success && !f.blocking, q);
    }
    hide EntryRight;
  }

  lemma SameTokens(u: State, t: State)
    requires TokensRight(u) && t == u.(inflight := t.inflight, blocked := t.blocked, slice := t.slice)
    ensures TokensRight(t)
  {
  }

  lemma StepInv(s: State, e: Event, s': State)
    requires Inv(s) && Step(s, e, s')
    ensures Inv(s')
  {
    hide Fired, Sent, TokensRight, Replied;
    match e {
      case BlockPeer(p) => SentInv(s, p, true);
      case UnblockPeer(p, done, force) =>
        SentInv(s, p, false);
        if force || p in s.blocked {
          var s1 := if AlreadySent(s, p, false) then s else Sent(Fired(s, p, false), p, false);
          SentEntry(Fired(s, p, false), p, false);
          WithCallbackInv(s1, p);
        }
      case Reply(r, success, now) => RepliedInv(s, r, success, now);
      case Load(count, list) => SameRequests(s, s');
      case ServerChanged(p, isBlocked) => SameRequests(s, s');
    }
  }

  lemma SentEntry(s: State, p: Peer, blocking: bool)
    ensures p in Sent(s, p, blocking).requests && Sent(s, p, blocking).requests[p].blocking == blocking
  {
  }

  lemma SameRequests(s: State, s': State)
    requires Inv(s) && s' == s.(slice := s'.slice, blocked := s'.blocked)
    requires s'.slice.Some? ==> s'.slice.value.total >= |s'.slice.value.list|
    ensures Inv(s')
  {
    assert forall q :: q in s.requests ==> EntryRight(s, q) && EntryRight(s', q);
  }

  ghost predicate IsRun(states: seq<State>, events: seq<Event>)
  {
    && |states| == |events| + 1 && states[0] == START
    && forall i :: 0 <= i < |events| ==> Step(states[i], events[i], states[i + 1])
  }

  lemma {:induction false} RunInv(states: seq<State>, events: seq<Event>)
    requires IsRun(states, events)
    ensures Inv(states[|events|])
  {
    if events != [] {
      var n := |events| - 1;
      RunInv(states[..n + 1], events[..n]);
      StepInv(states[n], events[n], states[n + 1]);
    }
  }

  /** Under any interleaving a callback runs at most once; when every request has been
      answered each has run exactly once. */
  lemma AllRepliedAllFired(states: seq<State>, events: seq<Event>)
    requires IsRun(states, events)
    ensures var s := states[|events|];
      && Distinct(s.fired)
      && (s.inflight == map[] ==> forall k: Token :: k < s.nextToken <==> k in s.fired)
  {
    RunInv(states, events);
    var s := states[|events|];
    if k: Token :| k in s.waiting {
      assert EntryRight(s, s.waiting[k]);
    }
  }

  // ----- what calls and replies do

  /** The first item of the peer goes, and nothing else. */
  lemma {:induction false} ErasedFirst(list: seq<Item>, p: Peer, i: nat)
    requires i < |list| && list[i].id == p && forall j :: 0 <= j < i ==> list[j].id != p
    ensures Erased(list, p) == list[..i] + list[i + 1..]
  {
    if i > 0 {
      var rest := list[1..];
      ErasedFirst(rest, p, i - 1);
      assert Erased(list, p) == [list[0]] + Erased(rest, p);
      hide Erased;
      assert list[..i] == [list[0]] + rest[..i - 1] && list[i + 1..] == rest[i..];
    }
  }

  lemma {:induction false} ErasedNone(list: seq<Item>, p: Peer)
    requires forall i :: 0 <= i < |list| ==> list[i].id != p
    ensures Erased(list, p) == list
  {
    if list != [] {
      ErasedNone(list[1..], p);
    }
  }

  /** Unless the peer is blocked already, a request to block it is in flight afterwards, under
      its entry, and a new one only if there was none. */
  lemma BlockGoes(s: State, p: Peer)
    requires Inv(s)
    ensures var t := Block(s, p);
      && (p in s.blocked ==> t == s)
      && (p !in s.blocked ==>
            p in t.requests && t.requests[p].requestId in t.inflight
            && t.inflight[t.requests[p].requestId] == Flight(p, true))
      && t.nextRequest == s.nextRequest + (if p in s.blocked || AlreadySent(s, p, true) then 0 else 1)
      && (forall r :: r in s.inflight ==> r in t.inflight && t.inflight[r] == s.inflight[r])
  {
    if p in s.requests {
      assert EntryRight(s, p);
    }
    assert TokensRight(s);
    FiredShape(s, p, false);
  }

  /** So for unblocking, and the callback passed in is stored under that entry. */
  lemma UnblockGoes(s: State, p: Peer, done: bool, force: bool)
    requires Inv(s)
    ensures var t := Unblock(s, p, done, force); var let := force || p in s.blocked;
      && (!let ==> t == s)
      && (let ==>
            p in t.requests && t.requests[p].requestId in t.inflight
            && t.inflight[t.requests[p].requestId] == Flight(p, false))
      && (let && done ==> s.nextToken in t.requests[p].callbacks && s.nextToken in t.waiting)
      && t.nextToken == s.nextToken + (if let && done then 1 else 0)
      && t.nextRequest == s.nextRequest + (if !let || AlreadySent(s, p, false) then 0 else 1)
      && (forall r :: r in s.inflight ==> r in t.inflight && t.inflight[r] == s.inflight[r])
  {
    if p in s.requests {
      assert EntryRight(s, p);
    }
    assert TokensRight(s);
    FiredShape(s, p, false);
  }

  /** A reply takes its request off the network and the peer's entry away, and a success moves
      the peer and nobody else. */
  lemma RepliedGoes(s: State, r: ReqId, success: bool, now: int)
    requires Inv(s) && r in s.inflight
    ensures var t, f := Replied(s, r, success, now), s.inflight[r];
      && t.inflight == s.inflight - {r} && t.requests.Keys == s.requests.Keys - {f.peer}
      && (forall q :: q in t.blocked <==> if success && q == f.peer then f.blocking else q in s.blocked)
  {
    var f := s.inflight[r];
    assert TokensRight(s);
    FiredShape(s, f.peer, success && !f.blocking);
  }

  /** The callbacks that the calls of a run have passed in, those of calls that do nothing left
      out. */
  ghost function PassedIn(states: seq<State>, events: seq<Event>): nat
    requires |states| == |events| + 1
  {
    if events == [] then 0
    else
      var n := |events| - 1;
      var e := events[n];
      PassedIn(states[..n + 1], events[..n])
        + if e.UnblockPeer? && e.done && (e.force || e.p in states[n].blocked) then 1 else 0
  }

  lemma {:induction false} TokensPassedIn(states: seq<State>, events: seq<Event>)
    requires IsRun(states, events)
    ensures states[|events|].nextToken == PassedIn(states, events)
  {
    if events != [] {
      var n := |events| - 1;
      var e := events[n];
      TokensPassedIn(states[..n + 1], events[..n]);
      RunInv(states[..n + 1], events[..n]);
      assert Step(states[n], e, states[n + 1]);
      match e {
        case BlockPeer(p) =>
        case UnblockPeer(p, done, force) => UnblockGoes(states[n], p, done, force);
        case Reply(r, success, now) =>
        case Load(count, list) =>
        case ServerChanged(p, isBlocked) =>
      }
    }
  }

  // ----- whose outcome a callback hears

  /** The request a stored callback waits for. */
  function OwnRequest(s: State, k: Token): ReqId
    requires k in s.waiting && s.waiting[k] in s.requests
  {
    s.requests[s.waiting[k]].requestId
  }

  /** Something else can take the entry of p before the request `own` is answered: a call of
      `block`, which a peer not blocked lets through, or the reply to an older request. */
  ghost predicate Exposed(s: State, p: Peer, own: ReqId)
  {
    p !in s.blocked || exists r :: r in s.inflight && r != own && s.inflight[r].peer == p
  }

  /** A reply tells the callbacks it takes whether its own request unblocked the peer. */
  lemma ReportsOwnOutcome(s: State, r: ReqId, success: bool, now: int, k: Token)
    requires Inv(s) && r in s.inflight && k in s.waiting && s.waiting[k] == s.inflight[r].peer
    ensures var s' := Replied(s, r, success, now); var e := s.requests[s.waiting[k]];
      && k in s'.fired && k in s'.reported && s'.reported[k] == (success && !s.inflight[r].blocking)
      && (e.requestId != r ==> e.requestId in s'.inflight && !s'.inflight[e.requestId].blocking)
  {
    assert EntryRight(s, s.waiting[k]);
  }

  /** Running the callbacks of another peer leaves a stored callback where it is. */
  lemma FiredOther(s: State, p: Peer, value: bool, k: Token)
    requires Inv(s) && k in s.waiting && s.waiting[k] != p
    ensures var t := Fired(s, p, value);
      && k in t.waiting && t.waiting[k] == s.waiting[k] && s.waiting[k] in t.requests
      && t.requests[s.waiting[k]] == s.requests[s.waiting[k]] && k !in t.fired
  {
    assert TokensRight(s) && s.waiting[k] in s.requests;
    if p in s.requests {
      assert EntryRight(s, p);
    }
  }

  lemma FiredOwn(s: State, value: bool, k: Token)
    requires Inv(s) && k in s.waiting
    ensures var t := Fired(s, s.waiting[k], value);
      && k in t.fired && k in t.reported && t.reported[k] == value && t.inflight == s.inflight
  {
    assert TokensRight(s);
  }

  /** A step that does not answer `own` either fires k, being exposed, or leaves it stored for
      the same request. */
  lemma KeptOrExposed(s: State, e: Event, s': State, k: Token)
    requires Inv(s) && Step(s, e, s') && k in s.waiting
    requires !(e.Reply? && e.r == OwnRequest(s, k))
    ensures Exposed(s, s.waiting[k], OwnRequest(s, k)) || (
      && k in s'.waiting && s'.waiting[k] == s.waiting[k] && s.waiting[k] in s'.requests
      && OwnRequest(s', k) == OwnRequest(s, k) && k !in s'.fired)
  {
    var p := s.waiting[k];
    assert EntryRight(s, p);
    assert k !in s.fired && k < s.nextToken by { assert TokensRight(s); }
    assert !s.requests[p].blocking;
    hide Inv, EntryRight, TokensRight, Fired;
    match e {
      case BlockPeer(q) =>
        if q != p { FiredOther(s, q, false, k); }
      case UnblockPeer(q, done, force) =>
        if q != p { FiredOther(s, q, false, k); }
      case Reply(r, success, now) =>
        var q := s.inflight[r].peer;
        if q != p { RepliedOther(s, r, success, now, k); }
      case Load(count, list) =>
      case ServerChanged(q, isBlocked) =>
    }
  }

  lemma RepliedOther(s: State, r: ReqId, success: bool, now: int, k: Token)
    requires Inv(s) && r in s.inflight && k in s.waiting && s.waiting[k] != s.inflight[r].peer
    ensures var t := Replied(s, r, success, now);
      && k in t.waiting && t.waiting[k] == s.waiting[k] && s.waiting[k] in t.requests
      && t.requests[s.waiting[k]] == s.requests[s.waiting[k]] && k !in t.fired
  {
    var f := s.inflight[r];
    FiredOther(s, f.peer, success && !f.blocking, k);
    RepliedFires(s, r, success, now);
  }

  lemma RepliedFires(s: State, r: ReqId, success: bool, now: int)
    requires r in s.inflight
    ensures var f := s.inflight[r]; var t, u := Replied(s, r, success, now), Fired(s, f.peer, success && !f.blocking);
      t.waiting == u.waiting && t.requests == u.requests && t.fired == u.fired
  {
    hide SliceAfter;
    var f := s.inflight[r];
    var t, u := Replied(s, r, success, now), Fired(s, f.peer, success && !f.blocking);
    assert t.waiting == u.waiting && t.requests == u.requests && t.fired == u.fired;
  }

  /** The next step can run a stored callback before its own request is answered exactly when
      the peer is not blocked or another request for it is in flight. */
  lemma MishearsExactlyWhen(s: State, k: Token)
    requires Inv(s) && k in s.waiting && s.waiting[k] in s.requests
    ensures (exists e, s' :: Step(s, e, s') && k in s'.fired && OwnRequest(s, k) in s'.inflight)
      <==> Exposed(s, s.waiting[k], OwnRequest(s, k))
  {
    var p, own := s.waiting[k], OwnRequest(s, k);
    assert EntryRight(s, p) && own in s.inflight && !s.requests[p].blocking && own < s.nextRequest by {
      assert TokensRight(s);
    }
    hide Inv, Fired, Replied, SliceAfter;
    if p !in s.blocked {
      var s' := Block(s, p);
      FiredOwn(s, false, k);
      assert Step(s, BlockPeer(p), s') && k in s'.fired && own in s'.inflight;
    } else if r :| r in s.inflight && r != own && s.inflight[r].peer == p {
      var s' := Replied(s, r, false, 0);
      ReportsOwnOutcome(s, r, false, 0, k);
      assert Step(s, Reply(r, false, 0), s') && k in s'.fired && own in s'.inflight;
    }
    forall e, s' | Step(s, e, s') && k in s'.fired && own in s'.inflight
      ensures Exposed(s, p, own)
    {
      AnsweredGone(s, e, s', own);
      KeptOrExposed(s, e, s', k);
    }
  }

  lemma AnsweredGone(s: State, e: Event, s': State, own: ReqId)
    requires Step(s, e, s') && own in s'.inflight
    ensures !(e.Reply? && e.r == own)
  {
  }

  /** As long as that is not so, a callback hears exactly the outcome of its own request: it
      is still stored, or that request was answered and it was told how. */
  lemma {:induction false} HearsOwnOutcome(states: seq<State>, events: seq<Event>, k: Token, p: Peer, own: ReqId)
    requires |states| == |events| + 1 && Inv(states[0])
    requires forall i :: 0 <= i < |events| ==> Step(states[i], events[i], states[i + 1])
    requires k in states[0].waiting && states[0].waiting[k] == p
    requires p in states[0].requests && states[0].requests[p].requestId == own
    requires forall i :: 0 <= i < |events| && k in states[i].waiting ==> !Exposed(states[i], p, own)
    ensures
      var t := states[|events|];
      || (k in t.waiting && t.waiting[k] == p && p in t.requests && t.requests[p].requestId == own && k !in t.fired)
      || (k in t.fired && k in t.reported
          && exists i ::
            0 <= i < |events| && events[i].Reply? && events[i].r == own && events[i].success == t.reported[k])
  {
    if events == [] {
      assert TokensRight(states[0]);
    } else {
      var s, e, s' := states[0], events[0], states[1];
      assert Step(s, e, s');
      assert EntryRight(s, p) by { assert TokensRight(s); }
      StepInv(s, e, s');
      if e.Reply? && e.r == own {
        ReportsOwnOutcome(s, own, e.success, e.now, k);
        StaysReported(states, events, 1, k);
      } else {
        KeptOrExposed(s, e, s', k);
        HearsOwnOutcome(states[1..], events[1..], k, p, own);
      }
    }
  }

  /** What a callback was told once is never changed. */
  lemma {:induction false} StaysReported(states: seq<State>, events: seq<Event>, i: nat, k: Token)
    requires |states| == |events| + 1 && Inv(states[0]) && i <= |events|
    requires forall j :: 0 <= j < |events| ==> Step(states[j], events[j], states[j + 1])
    requires k in states[i].fired && k in states[i].reported && Inv(states[i])
    ensures var t := states[|events|]; k in t.fired && k in t.reported && t.reported[k] == states[i].reported[k]
    decreases |events| - i
  {
    if i < |events| {
      assert Step(states[i], events[i], states[i + 1]);
      StepInv(states[i], events[i], states[i + 1]);
      StepReported(states[i], events[i], states[i + 1], k);
      StaysReported(states, events, i + 1, k);
    }
  }

  lemma StepReported(s: State, e: Event, s': State, k: Token)
    requires Inv(s) && Step(s, e, s') && k in s.fired && k in s.reported
    ensures k in s'.fired && k in s'.reported && s'.reported[k] == s.reported[k]
  {
    hide Erased, SliceAfter;
    forall p, value
      ensures var t := Fired(s, p, value); k in t.fired && k in t.reported && t.reported[k] == s.reported[k]
    {
      FiredReported(s, p, value, k);
    }
    if e.Reply? {
      var f, v := s.inflight[e.r], e.success && !s.inflight[e.r].blocking;
      assert s'.fired == Fired(s, f.peer, v).fired && s'.reported == Fired(s, f.peer, v).reported;
    }
    hide Fired;
  }

  lemma FiredReported(s: State, p: Peer, value: bool, k: Token)
    requires Inv(s) && k in s.fired && k in s.reported
    ensures var t := Fired(s, p, value); k in t.fired && k in t.reported && t.reported[k] == s.reported[k]
  {
    if p in s.requests {
      assert EntryRight(s, p) && TokensRight(s);
    }
  }

  /** And that happens: block, unblock with a callback, then the reply to the block. The
      callback hears "failed" although the unblocking request is still on its way. */
  lemma StaleReplyMisreports(p: Peer, now: int)
    ensures var s := Replied(Unblock(Block(START, p), p, true, true), 1, true, now);
      && 0 in s.reported && s.reported[0] == false && p in s.blocked
      && 2 in s.inflight && s.inflight[2] == Flight(p, false)
      && p !in Replied(s, 2, true, now).blocked && Replied(s, 2, true, now).reported[0] == false
  {
    var a := Block(START, p);
    assert a.requests == map[p := Entry(1, true, [])] && a.inflight == map[1 := Flight(p, true)];
    var b := Unblock(a, p, true, true);
    assert b.requests[p] == Entry(2, false, [0]);
    var s := Replied(b, 1, true, now);
    assert p !in s.requests;
  }

  /** No reply is needed: unblock with a callback, then block. */
  lemma OppositeCallMisreports(p: Peer)
    ensures var s := Block(Unblock(START, p, true, true), p);
      0 in s.reported && s.reported[0] == false && 1 in s.inflight && s.inflight[1] == Flight(p, false)
  {
    var a := Unblock(START, p, true, true);
    assert a.requests[p] == Entry(1, false, [0]);
  }

  /** And the report can be "succeeded": unblock, block, unblock with a callback, then the
      reply to the first. */
  lemma StaleReplyPromises(p: Peer, now: int)
    ensures var s := Replied(Unblock(Block(Unblock(START, p, false, true), p), p, true, true), 1, true, now);
      0 in s.reported && s.reported[0] == true && 3 in s.inflight && s.inflight[3] == Flight(p, false)
  {
    var a := Unblock(START, p, false, true);
    assert a.requests == map[p := Entry(1, false, [])] && a.inflight == map[1 := Flight(p, false)];
    var b := Block(a, p);
    assert b.requests[p] == Entry(2, true, []);
    var c := Unblock(b, p, true, true);
    assert c.requests[p] == Entry(3, false, [0]) && c.inflight[1] == Flight(p, false);
  }

  lemma ReportedMore(reported: map<Token, bool>, callbacks: seq<Token>, k: Token, value: bool)
    ensures (reported + map j | j in callbacks :: value)[k := value]
         == reported + map j | j in callbacks + [k] :: value
  {
    assert forall j :: j in callbacks + [k] <==> j in callbacks || j == k;
  }

  // ----- the code

  class BlockedPeersApi {
    var requests: map<Peer, Entry>
    var slice: Option<Slice>
    var blocked: set<Peer>
    var inflight: map<ReqId, Flight>
    var nextRequest: ReqId
    var nextToken: Token
    ghost var waiting: map<Token, Peer>
    ghost var fired: seq<Token>
    ghost var reported: map<Token, bool>

    ghost function St(): State
      reads this
    {
      State(requests, slice, blocked, inflight, nextRequest, nextToken, waiting, fired, reported)
    }

    constructor ()
      ensures St() == START
    {
      requests, slice, blocked, inflight, nextRequest, nextToken := map[], None, {}, map[], 1, 0;
      waiting, fired, reported := map[], [], map[];
    }

    /** The loop that runs the callbacks of a taken entry. */
    ghost method Run(callbacks: seq<Token>, value: bool, p: Peer)
      modifies this`waiting, this`fired, this`reported
      ensures waiting == map k | k in old(waiting) && old(waiting)[k] != p :: old(waiting)[k]
      ensures fired == old(fired) + callbacks && reported == old(reported) + map k | k in callbacks :: value
    {
      waiting := map k | k in waiting && waiting[k] != p :: waiting[k];
      var i := 0;
      while i < |callbacks|
        invariant 0 <= i <= |callbacks|
        invariant fired == old(fired) + callbacks[..i]
        invariant reported == old(reported) + map k | k in callbacks[..i] :: value
        invariant waiting == map k | k in old(waiting) && old(waiting)[k] != p :: old(waiting)[k]
      {
        assert callbacks[..i + 1] == callbacks[..i] + [callbacks[i]];
        ReportedMore(old(reported), callbacks[..i], callbacks[i], value);
        fired := fired + [callbacks[i]];
        reported := reported[callbacks[i] := value];
        i := i + 1;
      }
      assert callbacks[..i] == callbacks;
    }

    method Send(p: Peer, blocking: bool) returns (r: ReqId)
      modifies this`inflight, this`nextRequest
      ensures r == old(nextRequest) && nextRequest == r + 1 && inflight == old(inflight)[r := Flight(p, blocking)]
    {
      r := nextRequest;
      inflight, nextRequest := inflight[r := Flight(p, blocking)], nextRequest + 1;
    }

    method BlockAlreadySent(p: Peer, blocking: bool, done: bool) returns (already: bool)
      modifies this
      ensures already == AlreadySent(old(St()), p, blocking)
      ensures St() == if !already then Fired(old(St()), p, false) else if done then WithCallback(old(St()), p)
        else old(St())
    {
      if p !in requests {
        return false;
      } else if requests[p].blocking == blocking {
        if done {
          requests := requests[p := requests[p].(callbacks := requests[p].callbacks + [nextToken])];
          waiting := waiting[nextToken := p];
          nextToken := nextToken + 1;
        }
        return true;
      }
      ghost var callbacks := requests[p].callbacks;
      requests := requests - {p};
      Run(callbacks, false, p);
      return false;
    }

    method BlockPeer(p: Peer)
      modifies this
      ensures St() == Block(old(St()), p)
    {
      if p in blocked {
        return;
      }
      var already := BlockAlreadySent(p, true, false);
      if already {
        return;
      }
      var r := Send(p, true);
      requests := requests[p := Entry(r, true, [])];
    }

    method UnblockPeer(p: Peer, done: bool, force: bool)
      modifies this
      ensures St() == Unblock(old(St()), p, done, force)
    {
      if !force && p !in blocked {
        return;
      }
      var already := BlockAlreadySent(p, false, done);
      if already {
        return;
      }
      var r := Send(p, false);
      requests := requests[p := Entry(r, false, [])];
      if done {
        requests := requests[p := requests[p].(callbacks := requests[p].callbacks + [nextToken])];
        waiting := waiting[nextToken := p];
        nextToken := nextToken + 1;
      }
    }

    static method EraseFirst(list: seq<Item>, p: Peer) returns (r: seq<Item>)
      ensures r == Erased(list, p)
    {
      r := list;
      var i := 0;
      while i < |list|
        invariant 0 <= i <= |list| && r == list
        invariant Erased(list, p) == list[..i] + Erased(list[i..], p)
      {
        assert list[i..][1..] == list[i + 1..];
        if list[i].id == p {
          r := list[..i] + list[i + 1..];
          return;
        }
        assert list[..i] + ([list[i]] + Erased(list[i + 1..], p)) == list[..i + 1] + Erased(list[i + 1..], p);
        i := i + 1;
      }
      assert list[i..] == [];
    }

    /** What a successful reply changes besides the entry. */
    method ApplySuccess(f: Flight, now: int)
      modifies this`blocked, this`slice
      ensures blocked == if f.blocking then old(blocked) + {f.peer} else old(blocked) - {f.peer}
      ensures slice == if old(slice).Some? then Some(SliceAfter(old(slice).value, f, now)) else None
    {
      if f.blocking {
        blocked := blocked + {f.peer};
        if slice.Some? {
          slice := Some(Slice([Item(f.peer, now)] + slice.value.list, slice.value.total + 1));
        }
      } else {
        blocked := blocked - {f.peer};
        if slice.Some? {
          var list := EraseFirst(slice.value.list, f.peer);
          slice := Some(Slice(list, if slice.value.total > |list| then slice.value.total - 1 else slice.value.total));
        }
      }
    }

    /** The reply or failure of request r. */
    method Finish(r: ReqId, success: bool, now: int)
      requires r in inflight
      modifies this
      ensures St() == Replied(old(St()), r, success, now)
    {
      hide SliceAfter;
      var f := inflight[r];
      inflight := inflight - {r};
      var data := if f.peer in requests then Some(requests[f.peer]) else None;
      requests := requests - {f.peer};
      if success {
        ApplySuccess(f, now);
      }
      if data.Some? {
        Run(data.value.callbacks, success && !f.blocking, f.peer);
      }
    }

    /** `TLToSlice` on a reloaded list. */
    method GotBlocked(count: int, list: seq<Item>)
      modifies this`slice
      ensures St() == Loaded(old(St()), count, list)
    {
      var loaded := Slice(list, if count < |list| then |list| else count);
      if slice.None? || slice.value != loaded {
        slice := Some(loaded);
      }
    }
  }
}
