/** Batched message-data requests: callbacks are registered per message, a queued
    resolve sends one request per chat, and a reply or failure runs the callbacks. */
module MessageData {
  import opened Collections

  type MsgId = int
  type ReqId = nat
  /** One registration of a callback; every registration gets its own number. */
  type Token = nat

  /** A null channel pointer (users and basic groups share one table), or a channel. */
  datatype Chat = Common | Channel(id: nat)

  datatype Entry = Entry(requestId: ReqId, callbacks: seq<Token>)
  type Table = map<MsgId, Entry>

  datatype Flight = Flight(chat: Chat, ids: set<MsgId>)

  /** `plain` and `channels` are the two maps of the source, `queued` the pending queued
      invocation, `inflight` the network. The last four record the callbacks: where each
      waiting one is stored, those taken out by a finished request, those already run. */
  datatype State = State(
    plain: Table,
    channels: map<nat, Table>,
    queued: bool,
    inflight: map<ReqId, Flight>,
    nextRequest: ReqId,
    nextToken: Token,
    waiting: map<Token, (Chat, MsgId)>,
    ready: seq<Token>,
    fired: seq<Token>)

  datatype Registration = Registration(chat: Chat, msgId: MsgId, hasCallback: bool)

  function Tab(s: State, chat: Chat): Table
  {
    match chat
    case Common => s.plain
    case Channel(c) => if c in s.channels then s.channels[c] else map[]
  }

  function WithTab(s: State, chat: Chat, t: Table): (s': State)
    ensures Tab(s', chat) == t
    ensures forall other :: other != chat ==> Tab(s', other) == Tab(s, other)
  {
    match chat
    case Common => s.(plain := t)
    case Channel(c) => s.(channels := if t == map[] then s.channels - {c} else s.channels[c := t])
  }

  // ----- the steps

  function Registered(s: State, reg: Registration): State
  {
    var t := Tab(s, reg.chat);
    var e := if reg.msgId in t then t[reg.msgId] else Entry(0, []);
    var s1 := s.(queued := s.queued || e.requestId == 0);
    if reg.hasCallback then
      WithTab(s1, reg.chat, t[reg.msgId := Entry(e.requestId, e.callbacks + [s.nextToken])])
        .(nextToken := s.nextToken + 1, waiting := s.waiting[s.nextToken := (reg.chat, reg.msgId)])
    else
      WithTab(s1, reg.chat, t[reg.msgId := e])
  }

  function Unresolved(t: Table): set<MsgId>
  {
    set m | m in t && t[m].requestId == 0
  }

  /** What one queued resolve may do: each chat with unresolved entries gets exactly one
      fresh request carrying exactly those entries, and nothing else changes. */
  ghost predicate Resolved(s: State, s': State)
  {
    && !s'.queued && CallbacksKept(s, s')
    && (forall chat :: ChatResolved(s, s', chat))
    && NewFlights(s, s')
  }

  ghost predicate CallbacksKept(s: State, s': State)
  {
    s'.nextToken == s.nextToken && s'.waiting == s.waiting && s'.ready == s.ready && s'.fired == s.fired
  }

  ghost predicate ChatResolved(s: State, s': State, chat: Chat)
  {
    var t, t' := Tab(s, chat), Tab(s', chat);
    && t'.Keys == t.Keys
    && forall m :: m in t ==>
         && t'[m].callbacks == t[m].callbacks
         && (t[m].requestId > 0 ==> t'[m].requestId == t[m].requestId)
         && (t[m].requestId == 0 ==> Sent(s, s', chat, t'[m].requestId))
  }

  ghost predicate NewFlights(s: State, s': State)
  {
    && s'.nextRequest >= s.nextRequest
    && (forall r :: r in s.inflight ==> r in s'.inflight && s'.inflight[r] == s.inflight[r])
    && (forall r :: r in s'.inflight && r !in s.inflight ==>
          Sent(s, s', s'.inflight[r].chat, r) && s'.inflight[r].ids != {})
    && (forall r, q ::
          (r in s'.inflight && q in s'.inflight && r !in s.inflight && q !in s.inflight
            && s'.inflight[r].chat == s'.inflight[q].chat) ==> r == q)
  }

  ghost predicate Sent(s: State, s': State, chat: Chat, r: ReqId)
  {
    s.nextRequest <= r < s'.nextRequest && r in s'.inflight && s'.inflight[r] == Flight(chat, Unresolved(Tab(s, chat)))
  }

  function Covered(t: Table, r: ReqId): set<MsgId>
  {
    set m | m in t && t[m].requestId == r
  }

  /** `order` lists, in some order, the callbacks stored under the entries of request r. */
  ghost predicate CallbackOrder(s: State, r: ReqId, order: seq<Token>)
    requires r in s.inflight
  {
    var chat := s.inflight[r].chat;
    && Distinct(order)
    && forall k: Token :: k in order <==>
         k in s.waiting && s.waiting[k].0 == chat && s.waiting[k].1 in Covered(Tab(s, chat), r)
  }

  /** A finished request drops its entries and takes their callbacks out. */
  function Taken(s: State, r: ReqId, order: seq<Token>): State
    requires r in s.inflight
  {
    var chat := s.inflight[r].chat;
    var t := Tab(s, chat);
    WithTab(s, chat, t - Covered(t, r)).(
      inflight := s.inflight - {r},
      waiting := map k | k in s.waiting && k !in order :: s.waiting[k],
      ready := s.ready + order)
  }

  function Fired(s: State): State
    requires s.ready != []
  {
    s.(ready := s.ready[1..], fired := s.fired + [s.ready[0]])
  }

  function RegisteredAll(s: State, regs: seq<Registration>): (s': State)
    ensures s'.ready == s.ready
    decreases |regs|
  {
    if regs == [] then s else RegisteredAll(Registered(s, regs[0]), regs[1..])
  }

  /** Run the taken callbacks in order; each may register again. */
  function CallbacksRun(s: State, effect: Token -> seq<Registration>): State
    decreases |s.ready|
  {
    if s.ready == [] then s
    else CallbacksRun(RegisteredAll(Fired(s), effect(s.ready[0])), effect)
  }

  datatype Event =
    | Register(reg: Registration)
    | Resolve
    | Finish(r: ReqId, order: seq<Token>)
    | Fire

  ghost predicate Step(s: State, e: Event, s': State)
  {
    match e
    case Register(reg) => s' == Registered(s, reg)
    case Resolve => s.queued && Resolved(s, s')
    case Finish(r, order) => r in s.inflight && CallbackOrder(s, r, order) && s' == Taken(s, r, order)
    case Fire => s.ready != [] && s' == Fired(s)
  }

  const START := State(map[], map[], false, map[], 1, 0, map[], [], [])

  // ----- the invariant

  ghost predicate EntryCovered(s: State, chat: Chat, m: MsgId)
    requires m in Tab(s, chat)
  {
    var r := Tab(s, chat)[m].requestId;
    if r == 0 then s.queued
    else r in s.inflight && s.inflight[r].chat == chat && m in s.inflight[r].ids
  }

  /** The part of the invariant about one entry. */
  ghost predicate EntryInv(s: State, chat: Chat, m: MsgId)
    requires m in Tab(s, chat)
  {
    var e := Tab(s, chat)[m];
    && EntryCovered(s, chat, m) && Distinct(e.callbacks)
    && forall k :: k in e.callbacks ==> k in s.waiting && s.waiting[k] == (chat, m)
  }

  ghost predicate Stored(s: State, k: Token)
    requires k in s.waiting
  {
    var (chat, m) := s.waiting[k];
    m in Tab(s, chat) && k in Tab(s, chat)[m].callbacks
  }

  /** Every registration is in exactly one of: stored, taken out, run. */
  ghost predicate Conserved(s: State)
  {
    && Distinct(s.ready) && Distinct(s.fired)
    && (forall k :: k in s.ready ==> k !in s.fired && k !in s.waiting)
    && (forall k :: k in s.fired ==> k !in s.waiting)
    && (forall k: Token :: k < s.nextToken <==> k in s.waiting || k in s.ready || k in s.fired)
  }

  /** What a request in flight asks for are entries that carry its number. */
  ghost predicate FlightRight(s: State, r: ReqId)
    requires r in s.inflight
  {
    var f := s.inflight[r];
    forall m :: m in f.ids ==> m in Tab(s, f.chat) && Tab(s, f.chat)[m].requestId == r
  }

  ghost predicate Inv(s: State)
  {
    && (forall chat, m :: m in Tab(s, chat) ==> EntryInv(s, chat, m))
    && (forall r :: r in s.inflight ==> FlightRight(s, r))
    && (forall k :: k in s.waiting ==> Stored(s, k))
    && (forall r :: r in s.inflight ==> 0 < r < s.nextRequest)
    && s.nextRequest > 0
    && Conserved(s)
  }

  function EntryOf(s: State, chat: Chat, m: MsgId): Entry
  {
    if m in Tab(s, chat) then Tab(s, chat)[m] else Entry(0, [])
  }

  lemma RegisteredShape(s: State, reg: Registration)
    ensures var s' := Registered(s, reg); var e := EntryOf(s, reg.chat, reg.msgId); var n := s.nextToken;
      && Tab(s', reg.chat)
         == Tab(s, reg.chat)[reg.msgId := if reg.hasCallback then Entry(e.requestId, e.callbacks + [n]) else e]
      && (forall chat :: chat != reg.chat ==> Tab(s', chat) == Tab(s, chat))
      && s'.inflight == s.inflight && s'.nextRequest == s.nextRequest
      && s'.queued == (s.queued || e.requestId == 0)
      && s'.waiting == if reg.hasCallback then s.waiting[n := (reg.chat, reg.msgId)] else s.waiting
  {
  }

  lemma RegisteredConserved(s: State, reg: Registration)
    requires Conserved(s)
    ensures Conserved(Registered(s, reg))
  {
  }

  lemma RegisteredEntry(s: State, reg: Registration, chat: Chat, m: MsgId)
    requires m in Tab(Registered(s, reg), chat)
    requires m in Tab(s, chat) ==> EntryInv(s, chat, m)
    requires s.nextToken !in s.waiting
    ensures EntryInv(Registered(s, reg), chat, m)
  {
    hide Tab, WithTab, Registered, Distinct;
    RegisteredShape(s, reg);
    var n, e := s.nextToken, EntryOf(s, chat, m);
    assert Distinct(e.callbacks + [n]) by {
      DistinctSingle(n);
      assert Distinct(e.callbacks) by { if m !in Tab(s, chat) { DistinctEmpty<Token>(); } }
      DistinctConcat(e.callbacks, [n]);
    }
    var s' := Registered(s, reg);
    if chat == reg.chat && m == reg.msgId {
      assert Tab(s', chat)[m] == if reg.hasCallback then Entry(e.requestId, e.callbacks + [n]) else e;
      if m !in Tab(s, chat) {
        DistinctEmpty<Token>();
      }
      assert forall k :: k in e.callbacks + [n] <==> k in e.callbacks || k == n;
    } else {
      assert m in Tab(s, chat) && Tab(s', chat)[m] == Tab(s, chat)[m];
    }
  }

  lemma ConservedBounds(s: State)
    requires Conserved(s)
    ensures forall k :: k in s.waiting ==> k < s.nextToken
  {
  }

  lemma RegisteredWaiting(s: State, reg: Registration, k: Token)
    requires Inv(s) && k in Registered(s, reg).waiting
    ensures Stored(Registered(s, reg), k)
  {
    hide Tab, WithTab, Conserved, Registered;
    RegisteredShape(s, reg);
    assert s.nextToken !in s.waiting by { ConservedBounds(s); }
    if k in s.waiting {
      assert Stored(s, k);
      var (chat, m) := s.waiting[k];
      assert k in Tab(s, chat)[m].callbacks + [s.nextToken];
    }
  }

  lemma RegisteredInv(s: State, reg: Registration)
    requires Inv(s)
    ensures Inv(Registered(s, reg))
  {
    var s' := Registered(s, reg);
    RegisteredConserved(s, reg);
    RegisteredShape(s, reg);
    assert s.nextToken !in s.waiting;
    hide Tab, WithTab, Conserved, Registered, EntryCovered;
    forall chat, m | m in Tab(s', chat)
      ensures EntryInv(s', chat, m)
    {
      RegisteredEntry(s, reg, chat, m);
    }
    forall r | r in s'.inflight
      ensures FlightRight(s', r)
    {
      assert FlightRight(s, r);
    }
    forall k | k in s'.waiting
      ensures Stored(s', k)
    {
      RegisteredWaiting(s, reg, k);
    }
  }

  lemma ResolvedFlightsRight(s: State, s': State)
    requires Inv(s) && Resolved(s, s')
    ensures forall r :: r in s'.inflight ==> FlightRight(s', r)
  {
    hide Tab, Conserved, EntryInv, Stored, CallbacksKept;
    forall r | r in s'.inflight
      ensures FlightRight(s', r)
    {
      var f := s'.inflight[r];
      assert ChatResolved(s, s', f.chat);
      if r in s.inflight {
        assert FlightRight(s, r);
      } else {
        forall m | m in f.ids
          ensures m in Tab(s', f.chat) && Tab(s', f.chat)[m].requestId == r
        {
          assert m in Unresolved(Tab(s, f.chat));
          assert m in Tab(s', f.chat).Keys;
        }
      }
    }
  }

  lemma ResolvedInv(s: State, s': State)
    requires Inv(s) && Resolved(s, s')
    ensures Inv(s')
  {
    hide Tab, Conserved;
    assert Conserved(s') by { SameConserved(s, s'); }
    forall chat, m | m in Tab(s', chat)
      ensures EntryInv(s', chat, m)
    {
      assert ChatResolved(s, s', chat);
      assert m in Tab(s', chat).Keys;
      assert EntryInv(s, chat, m);
    }
    ResolvedFlightsRight(s, s');
    hide FlightRight;
    forall k | k in s'.waiting
      ensures Stored(s', k)
    {
      assert Stored(s, k);
      var (chat, m) := s.waiting[k];
      assert ChatResolved(s, s', chat) && m in Tab(s', chat).Keys;
    }
  }

  lemma SameConserved(s: State, s': State)
    requires s'.nextToken == s.nextToken && s'.waiting == s.waiting && s'.ready == s.ready && s'.fired == s.fired
    requires Conserved(s)
    ensures Conserved(s')
  {
  }

  lemma TakenShape(s: State, r: ReqId, order: seq<Token>)
    requires r in s.inflight
    ensures var s' := Taken(s, r, order); var chat := s.inflight[r].chat;
      && Tab(s', chat) == Tab(s, chat) - Covered(Tab(s, chat), r)
      && (forall other :: other != chat ==> Tab(s', other) == Tab(s, other))
      && s'.inflight == s.inflight - {r} && s'.nextRequest == s.nextRequest && s'.queued == s.queued
      && s'.waiting == map k | k in s.waiting && k !in order :: s.waiting[k]
  {
  }

  lemma TakenEntry(s: State, r: ReqId, order: seq<Token>, chat: Chat, m: MsgId)
    requires r in s.inflight && CallbackOrder(s, r, order)
    requires m in Tab(Taken(s, r, order), chat)
    requires m in Tab(s, chat) ==> EntryInv(s, chat, m)
    ensures m in Tab(s, chat) && Tab(Taken(s, r, order), chat)[m] == Tab(s, chat)[m]
    ensures EntryInv(Taken(s, r, order), chat, m)
  {
    hide Tab, WithTab, Taken, Distinct;
    TakenShape(s, r, order);
  }

  lemma TakenInv(s: State, r: ReqId, order: seq<Token>)
    requires Inv(s) && r in s.inflight && CallbackOrder(s, r, order)
    ensures Inv(Taken(s, r, order))
  {
    hide Tab, WithTab, Taken, Conserved, EntryCovered;
    var s' := Taken(s, r, order);
    TakenConserved(s, r, order);
    TakenShape(s, r, order);
    forall chat, m | m in Tab(s', chat)
      ensures EntryInv(s', chat, m)
    {
      TakenEntry(s, r, order, chat, m);
    }
    forall q | q in s'.inflight
      ensures FlightRight(s', q)
    {
      assert FlightRight(s, q);
    }
    forall k | k in s'.waiting
      ensures Stored(s', k)
    {
      assert Stored(s, k);
    }
  }

  lemma TakenConserved(s: State, r: ReqId, order: seq<Token>)
    requires Conserved(s) && r in s.inflight && CallbackOrder(s, r, order)
    ensures Conserved(Taken(s, r, order))
  {
    var s' := Taken(s, r, order);
    assert s'.fired == s.fired && s'.nextToken == s.nextToken && s'.ready == s.ready + order;
    assert forall k :: k in s'.waiting <==> k in s.waiting && k !in order;
    assert forall k :: k in order ==> k in s.waiting;
    hide Taken, CallbackOrder, Tab, WithTab;
    DistinctConcat(s.ready, order);
    assert forall k :: k in s'.ready <==> k in s.ready || k in order;
  }

  lemma FiredConserved(s: State)
    requires Conserved(s) && s.ready != []
    ensures Conserved(Fired(s))
  {
    var s' := Fired(s);
    assert forall k :: k in s.ready <==> k == s.ready[0] || k in s'.ready;
    assert forall k :: k in s'.fired <==> k == s.ready[0] || k in s.fired;
    assert s.ready[0] !in s'.ready && s.ready[0] !in s.fired;
  }

  lemma FiredInv(s: State)
    requires Inv(s) && s.ready != []
    ensures Inv(Fired(s))
  {
    var s' := Fired(s);
    FiredConserved(s);
    SameTables(s, s');
  }

  lemma SameTables(s: State, s': State)
    requires s'.plain == s.plain && s'.channels == s.channels && s'.queued == s.queued
    requires s'.inflight == s.inflight && s'.nextRequest == s.nextRequest && s'.waiting == s.waiting
    requires Inv(s) && Conserved(s')
    ensures Inv(s')
  {
    forall chat
      ensures Tab(s', chat) == Tab(s, chat)
    {
    }
    hide Tab, Conserved;
    forall chat, m | m in Tab(s', chat)
      ensures EntryInv(s', chat, m)
    {
      assert EntryInv(s, chat, m);
    }
    forall r | r in s'.inflight
      ensures FlightRight(s', r)
    {
      assert FlightRight(s, r);
    }
    forall k | k in s'.waiting
      ensures Stored(s', k)
    {
      assert Stored(s, k);
    }
  }

  /** No message is asked for by two requests at once. */
  lemma AskedOnce(s: State, r: ReqId, q: ReqId, m: MsgId)
    requires Inv(s) && r in s.inflight && q in s.inflight && s.inflight[r].chat == s.inflight[q].chat
    requires m in s.inflight[r].ids && m in s.inflight[q].ids
    ensures r == q
  {
    assert FlightRight(s, r) && FlightRight(s, q);
  }

  // ----- whole runs

  ghost predicate IsRun(states: seq<State>, events: seq<Event>)
  {
    && |states| == |events| + 1
    && states[0] == START
    && forall i :: 0 <= i < |events| ==> Step(states[i], events[i], states[i + 1])
  }

  lemma StepInv(s: State, e: Event, s': State)
    requires Inv(s) && Step(s, e, s')
    ensures Inv(s')
    ensures s.fired <= s'.fired
  {
    hide Inv, Resolved, CallbackOrder;
    match e
    case Register(reg) => RegisteredInv(s, reg);
    case Resolve => ResolvedInv(s, s'); ResolvedKeeps(s, s');
    case Finish(r, order) => TakenInv(s, r, order);
    case Fire => FiredInv(s);
  }

  lemma ResolvedKeeps(s: State, s': State)
    requires Resolved(s, s')
    ensures s'.fired == s.fired
  {
  }

  /** A callback registered is stored with its message, and something will ask for it. */
  lemma RegisteredGoes(s: State, reg: Registration)
    requires Inv(s) && reg.hasCallback
    ensures var s', k := Registered(s, reg), s.nextToken;
      && k in s'.waiting && s'.waiting[k] == (reg.chat, reg.msgId) && s'.nextToken == k + 1
      && reg.msgId in Tab(s', reg.chat) && k in Tab(s', reg.chat)[reg.msgId].callbacks
      && (s'.queued || exists r ::
            r in s'.inflight && s'.inflight[r].chat == reg.chat && reg.msgId in s'.inflight[r].ids)
  {
    var s' := Registered(s, reg);
    RegisteredShape(s, reg);
    RegisteredInv(s, reg);
    assert EntryInv(s', reg.chat, reg.msgId);
  }

  /** The callbacks that the events of a run register. */
  function CallbackCount(events: seq<Event>): nat
  {
    if events == [] then 0
    else
      var e := events[|events| - 1];
      CallbackCount(events[..|events| - 1]) + if e.Register? && e.reg.hasCallback then 1 else 0
  }

  lemma {:induction false} TokensRegistered(states: seq<State>, events: seq<Event>)
    requires IsRun(states, events)
    ensures states[|events|].nextToken == CallbackCount(events)
  {
    if events != [] {
      var n := |events| - 1;
      TokensRegistered(states[..n + 1], events[..n]);
      assert Step(states[n], events[n], states[n + 1]);
    }
  }

  /** Over every interleaving: no registered callback is lost and none runs twice. */
  lemma {:induction false} RunInv(states: seq<State>, events: seq<Event>)
    requires IsRun(states, events)
    ensures Inv(states[|events|])
  {
    if events == [] {
    } else {
      var n := |events| - 1;
      RunInv(states[..n + 1], events[..n]);
      StepInv(states[n], events[n], states[n + 1]);
    }
  }

  /** When nothing is queued or in flight, every registration has run exactly once. */
  lemma QuiescentAllFired(states: seq<State>, events: seq<Event>)
    requires IsRun(states, events)
    requires var s := states[|events|]; !s.queued && s.inflight == map[] && s.ready == []
    ensures var s := states[|events|]; Distinct(s.fired) && forall k: Token :: k < s.nextToken <==> k in s.fired
  {
    var s := states[|events|];
    RunInv(states, events);
    if k: Token :| k in s.waiting {
      WaitingCovered(s, k);
    }
  }

  /** A callback still stored is waiting for a queued resolve or for one request in
      flight to the same chat that asks for its message. */
  lemma WaitingCovered(s: State, k: Token)
    requires Inv(s) && k in s.waiting
    ensures var (chat, m) := s.waiting[k];
      || s.queued
      || exists r :: r in s.inflight && s.inflight[r].chat == chat && m in s.inflight[r].ids
  {
    assert Stored(s, k);
    var (chat, m) := s.waiting[k];
    assert EntryInv(s, chat, m);
  }

  // ----- the code

  function Assigned(t: Table, r: ReqId): Table
  {
    map m | m in t :: if t[m].requestId > 0 then t[m] else t[m].(requestId := r)
  }

  class ApiWrap {
    var plain: Table
    var channels: map<nat, Table>
    var queued: bool
    var inflight: map<ReqId, Flight>
    var nextRequest: ReqId
    var nextToken: Token
    ghost var waiting: map<Token, (Chat, MsgId)>
    ghost var fired: seq<Token>

    ghost function St(): State
      reads this
    {
      State(plain, channels, queued, inflight, nextRequest, nextToken, waiting, [], fired)
    }

    constructor ()
      ensures St() == START
    {
      plain, channels, queued, inflight := map[], map[], false, map[];
      nextRequest, nextToken, waiting, fired := 1, 0, map[], [];
    }

    method RequestMessageData(chat: Chat, msgId: MsgId, done: bool)
      modifies this
      ensures St() == Registered(old(St()), Registration(chat, msgId, done))
    {
      var table := match chat case Common => plain case Channel(c) => if c in channels then channels[c] else map[];
      var entry := if msgId in table then table[msgId] else Entry(0, []);
      if done {
        entry := entry.(callbacks := entry.callbacks + [nextToken]);
        waiting := waiting[nextToken := (chat, msgId)];
        nextToken := nextToken + 1;
      }
      match chat {
        case Common => plain := plain[msgId := entry];
        case Channel(c) => channels := channels[c := table[msgId := entry]];
      }
      if entry.requestId == 0 {
        queued := true;
      }
      assert msgId in table[msgId := entry];
    }

    method Send(flight: Flight) returns (r: ReqId)
      modifies this`inflight, this`nextRequest
      ensures r == old(nextRequest) && nextRequest == r + 1
      ensures inflight == old(inflight)[r := flight]
    {
      r := nextRequest;
      inflight := inflight[r := flight];
      nextRequest := nextRequest + 1;
    }

    static method CollectMessageIds(t: Table) returns (ids: set<MsgId>)
      ensures ids == Unresolved(t)
    {
      ids := {};
      var todo := t.Keys;
      while todo != {}
        invariant todo <= t.Keys
        invariant ids == set m | m in t.Keys - todo && t[m].requestId == 0
      {
        var m := Pick(todo);
        todo := todo - {m};
        if t[m].requestId > 0 {
          continue;
        }
        ids := ids + {m};
      }
    }

    static method AssignId(t: Table, r: ReqId) returns (t': Table)
      ensures t' == Assigned(t, r)
    {
      t' := t;
      var todo := t.Keys;
      while todo != {}
        invariant todo <= t.Keys && t'.Keys == t.Keys
        invariant forall m :: m in todo ==> t'[m] == t[m]
        invariant forall m :: m in t.Keys - todo ==> t'[m] == Assigned(t, r)[m]
      {
        var m := Pick(todo);
        todo := todo - {m};
        if t'[m].requestId > 0 {
          continue;
        }
        t' := t'[m := t'[m].(requestId := r)];
      }
      assert forall m :: m in t ==> t'[m] == Assigned(t, r)[m];
    }

    /** The table loop of one chat: at most one request, for the unresolved entries. */
    method ResolveTable(chat: Chat, t: Table) returns (t': Table)
      modifies this`inflight, this`nextRequest
      ensures nextRequest >= old(nextRequest)
      ensures Unresolved(t) == {} ==> t' == t && inflight == old(inflight) && nextRequest == old(nextRequest)
      ensures Unresolved(t) != {} ==>
        && t' == Assigned(t, old(nextRequest)) && nextRequest == old(nextRequest) + 1
        && inflight == old(inflight)[old(nextRequest) := Flight(chat, Unresolved(t))]
    {
      t' := t;
      var ids := CollectMessageIds(t);
      if ids != {} {
        var requestId := Send(Flight(chat, ids));
        t' := AssignId(t, requestId);
      }
    }

    method ResolveCommon()
      modifies this
      ensures TableResolved(old(St()), St(), Common)
      ensures channels == old(channels)
    {
      plain := ResolveTable(Common, plain);
    }

    method ResolveChannel(c: nat)
      requires c in channels
      modifies this
      ensures TableResolved(old(St()), St(), Channel(c))
      ensures channels.Keys - {c} == old(channels.Keys) - {c}
    {
      if channels[c] == map[] {
        channels := channels - {c};
      } else {
        var t := ResolveTable(Channel(c), channels[c]);
        channels := channels[c := t];
      }
    }

    /** The queued invocation. */
    method ResolveMessageDatas()
      requires Inv(St()) && queued
      modifies this
      ensures Resolved(old(St()), St())
    {
      hide ResolvedUpTo, Resolved, TableResolved, Tab, Unresolved;
      ghost var s := St();
      queued := false;
      ResolveStarts(s);
      if plain == map[] && channels == map[] {
        NothingLeft(s, St(), {});
        return;
      }
      ghost var before := St();
      assert FreshAbove(s) && FreshAbove(before);
      hide Inv, FreshAbove;
      ResolveCommon();
      ResolvedOne(s, before, St(), {}, Common);
      var todo := channels.Keys;
      ghost var done: set<Chat> := {} + {Common};
      while todo != {}
        invariant todo <= channels.Keys && Common in done
        invariant forall c :: c in todo ==> Channel(c) !in done
        invariant forall c :: c in s.channels ==> c in todo || Channel(c) in done
        invariant ResolvedUpTo(s, St(), done) && FreshAbove(St())
        decreases todo
      {
        var c := Pick(todo);
        before := St();
        ghost var keys := channels.Keys;
        ResolveChannel(c);
        ResolvedOne(s, before, St(), done, Channel(c));
        assert todo - {c} <= keys - {c} == channels.Keys - {c};
        todo := todo - {c};
        done := done + {Channel(c)};
      }
      NothingLeft(s, St(), done);
    }

    ghost function StWith(ready: seq<Token>): State
      reads this
    {
      St().(ready := ready)
    }

    /** The erasing loop over one table. */
    static method TakeCallbacks(t: Table, r: ReqId, ghost s: State, ghost chat: Chat)
      returns (t': Table, callbacks: seq<Token>)
      requires Inv(s) && Tab(s, chat) == t
      ensures t' == t - Covered(t, r)
      ensures TakenFrom(s, chat, Covered(t, r), callbacks)
    {
      hide Inv, Tab, EntryInv, Stored;
      t', callbacks := t, [];
      var todo := t.Keys;
      while todo != {}
        invariant todo <= t.Keys
        invariant t' == t - (Covered(t, r) - todo)
        invariant TakenFrom(s, chat, Covered(t, r) - todo, callbacks)
      {
        var m := Pick(todo);
        if t[m].requestId == r {
          EntryTokens(s, chat, m);
          TakenMore(s, chat, Covered(t, r) - todo, callbacks, m);
          callbacks := callbacks + t[m].callbacks;
          t' := t' - {m};
          assert Covered(t, r) - (todo - {m}) == (Covered(t, r) - todo) + {m};
        } else {
          assert Covered(t, r) - (todo - {m}) == Covered(t, r) - todo;
        }
        todo := todo - {m};
      }
      assert Covered(t, r) - todo == Covered(t, r);
    }

    /** Put a table back, dropping the table of a channel that has become empty. */
    method StoreTable(chat: Chat, table: Table)
      modifies this`plain, this`channels
      ensures St() == WithTab(old(St()), chat, table)
    {
      if chat.Common? {
        plain := table;
      } else if table == map[] {
        channels := channels - {chat.id};
      } else {
        channels := channels[chat.id := table];
      }
    }

    /** The entries of request r are erased and their callbacks moved out. */
    method TakeEntries(r: ReqId) returns (callbacks: seq<Token>)
      requires Inv(St()) && r in inflight
      modifies this
      ensures CallbackOrder(old(St()), r, callbacks)
      ensures StWith(callbacks) == Taken(old(St()), r, callbacks)
    {
      ghost var s := St();
      var chat := inflight[r].chat;
      hide Inv, TakenFrom, CallbackOrder, Tab, WithTab, Covered, Taken;
      callbacks := [];
      if chat.Common? || chat.id in channels {
        var table := if chat.Common? then plain else channels[chat.id];
        TabIs(s, chat, table);
        table, callbacks := TakeCallbacks(table, r, s, chat);
        StoreTable(chat, table);
      } else {
        NoTable(s, chat, r);
      }
      TakenOrder(s, r, callbacks);
      TakenFields(s, r, callbacks);
      inflight := inflight - {r};
      waiting := map k | k in waiting && k !in callbacks :: waiting[k];
    }

    /** A reply to, or a failure of, request r; `effect` says what each callback registers. */
    method FinalizeMessageDataRequest(r: ReqId, effect: Token -> seq<Registration>) returns (ghost order: seq<Token>)
      requires Inv(St()) && r in inflight
      modifies this
      ensures CallbackOrder(old(St()), r, order)
      ensures St() == CallbacksRun(Taken(old(St()), r, order), effect)
      ensures Inv(St())
    {
      hide Inv, Taken, CallbackOrder, CallbacksRun;
      ghost var s := St();
      var callbacks := TakeEntries(r);
      order := callbacks;
      TakenInv(s, r, order);
      RunCallbacks(callbacks, effect);
      CallbacksRunInv(Taken(s, r, order), effect);
    }

    method RunCallbacks(callbacks: seq<Token>, effect: Token -> seq<Registration>)
      modifies this
      ensures St() == CallbacksRun(old(StWith(callbacks)), effect)
    {
      ghost var s := StWith(callbacks);
      var i := 0;
      while i < |callbacks|
        invariant 0 <= i <= |callbacks|
        invariant CallbacksRun(StWith(callbacks[i..]), effect) == CallbacksRun(s, effect)
      {
        ghost var before, rest := StWith(callbacks[i..]), callbacks[i + 1..];
        assert callbacks[i..][0] == callbacks[i] && callbacks[i..][1..] == rest;
        fired := fired + [callbacks[i]];
        var regs := effect(callbacks[i]);
        assert StWith(rest) == Fired(before);
        ghost var fired1 := StWith(rest);
        var j := 0;
        while j < |regs|
          invariant 0 <= j <= |regs|
          invariant RegisteredAll(StWith(rest), regs[j..]) == RegisteredAll(fired1, regs)
        {
          RegisteredReady(St(), regs[j], rest);
          assert regs[j..][0] == regs[j] && regs[j..][1..] == regs[j + 1..];
          RequestMessageData(regs[j].chat, regs[j].msgId, regs[j].hasCallback);
          j := j + 1;
        }
        assert regs[j..] == [];
        i := i + 1;
      }
      assert callbacks[i..] == [];
    }
  }

  lemma RegisteredReady(s: State, reg: Registration, ready: seq<Token>)
    ensures Registered(s.(ready := ready), reg) == Registered(s, reg).(ready := ready)
  {
    var q := s.queued || EntryOf(s, reg.chat, reg.msgId).requestId == 0;
    TabReady(s, reg.chat, ready);
    forall t
      ensures WithTab(s.(queued := q, ready := ready), reg.chat, t) ==
        WithTab(s.(queued := q), reg.chat, t).(ready := ready)
    {
      WithTabReady(s.(queued := q), reg.chat, t, ready);
    }
    hide Tab, WithTab;
  }

  lemma TabReady(s: State, chat: Chat, ready: seq<Token>)
    ensures Tab(s.(ready := ready), chat) == Tab(s, chat)
  {
  }

  lemma WithTabReady(s: State, chat: Chat, t: Table, ready: seq<Token>)
    ensures WithTab(s.(ready := ready), chat, t) == WithTab(s, chat, t).(ready := ready)
  {
  }

  lemma {:induction false} RegisteredAllInv(s: State, regs: seq<Registration>)
    requires Inv(s)
    ensures Inv(RegisteredAll(s, regs))
    decreases |regs|
  {
    if regs != [] {
      RegisteredInv(s, regs[0]);
      RegisteredAllInv(Registered(s, regs[0]), regs[1..]);
    }
  }

  /** Callbacks that register again keep the invariant. */
  lemma {:induction false} CallbacksRunInv(s: State, effect: Token -> seq<Registration>)
    requires Inv(s)
    ensures Inv(CallbacksRun(s, effect))
    decreases |s.ready|
  {
    if s.ready != [] {
      FiredInv(s);
      RegisteredAllInv(Fired(s), effect(s.ready[0]));
      CallbacksRunInv(RegisteredAll(Fired(s), effect(s.ready[0])), effect);
    }
  }

  /** `q` lists the callbacks stored under the messages `ms` of a chat. */
  ghost predicate TakenFrom(s: State, chat: Chat, ms: set<MsgId>, q: seq<Token>)
  {
    && Distinct(q)
    && forall k: Token :: k in q <==> k in s.waiting && s.waiting[k].0 == chat && s.waiting[k].1 in ms
  }

  lemma EntryTokens(s: State, chat: Chat, m: MsgId)
    requires Inv(s) && m in Tab(s, chat)
    ensures TakenFrom(s, chat, {m}, Tab(s, chat)[m].callbacks)
  {
    assert EntryInv(s, chat, m);
    forall k | k in s.waiting && s.waiting[k] == (chat, m)
      ensures k in Tab(s, chat)[m].callbacks
    {
      assert Stored(s, k);
    }
  }

  lemma TakenMore(s: State, chat: Chat, ms: set<MsgId>, q: seq<Token>, m: MsgId)
    requires m in Tab(s, chat) && m !in ms
    requires TakenFrom(s, chat, ms, q) && TakenFrom(s, chat, {m}, Tab(s, chat)[m].callbacks)
    ensures TakenFrom(s, chat, ms + {m}, q + Tab(s, chat)[m].callbacks)
  {
    hide Tab;
    DistinctConcat(q, Tab(s, chat)[m].callbacks);
  }

  lemma TakenOrder(s: State, r: ReqId, q: seq<Token>)
    requires r in s.inflight
    requires var chat := s.inflight[r].chat; TakenFrom(s, chat, Covered(Tab(s, chat), r), q)
    ensures CallbackOrder(s, r, q)
  {
  }

  lemma TabIs(s: State, chat: Chat, t: Table)
    requires chat.Common? ==> t == s.plain
    requires chat.Channel? ==> chat.id in s.channels && t == s.channels[chat.id]
    ensures Tab(s, chat) == t
  {
  }

  lemma TakenFields(s: State, r: ReqId, order: seq<Token>)
    requires r in s.inflight
    ensures var chat := s.inflight[r].chat; var w := WithTab(s, chat, Tab(s, chat) - Covered(Tab(s, chat), r));
      Taken(s, r, order) == State(w.plain, w.channels, s.queued, s.inflight - {r}, s.nextRequest, s.nextToken,
        map k | k in s.waiting && k !in order :: s.waiting[k], s.ready + order, s.fired)
  {
  }

  lemma NoTable(s: State, chat: Chat, r: ReqId)
    requires Inv(s) && chat.Channel? && chat.id !in s.channels
    ensures TakenFrom(s, chat, Covered(Tab(s, chat), r), [])
    ensures WithTab(s, chat, Tab(s, chat) - Covered(Tab(s, chat), r)) == s
  {
    assert Tab(s, chat) - Covered(Tab(s, chat), r) == map[];
    assert forall k :: k in s.waiting ==> Stored(s, k);
  }

  /** The state in the middle of a resolve, with the chats of `done` behind it. */
  ghost predicate ResolvedUpTo(s: State, s': State, done: set<Chat>)
  {
    && !s'.queued && CallbacksKept(s, s')
    && (forall chat :: chat !in done ==> Tab(s', chat) == Tab(s, chat))
    && (forall chat :: chat in done ==> ChatResolved(s, s', chat))
    && NewFlights(s, s')
    && (forall r :: r in s'.inflight && r !in s.inflight ==> s'.inflight[r].chat in done)
  }

  /** One table loop, seen from outside. */
  ghost predicate TableResolved(s1: State, s2: State, chat: Chat)
  {
    var t := Tab(s1, chat);
    && s2.queued == s1.queued && CallbacksKept(s1, s2)
    && (forall other :: other != chat ==> Tab(s2, other) == Tab(s1, other))
    && (Unresolved(t) == {} ==>
          Tab(s2, chat) == t && s2.inflight == s1.inflight && s2.nextRequest == s1.nextRequest)
    && (Unresolved(t) != {} ==>
          && Tab(s2, chat) == Assigned(t, s1.nextRequest) && s2.nextRequest == s1.nextRequest + 1
          && s2.inflight == s1.inflight[s1.nextRequest := Flight(chat, Unresolved(t))])
  }

  lemma ResolveStarts(s: State)
    ensures ResolvedUpTo(s, s.(queued := false), {})
  {
    SameTabs(s, s.(queued := false));
  }

  lemma SameTabs(s: State, s': State)
    requires s'.plain == s.plain && s'.channels == s.channels
    ensures forall chat :: Tab(s', chat) == Tab(s, chat)
  {
  }

  ghost predicate FreshAbove(s: State)
  {
    s.nextRequest > 0 && forall r :: r in s.inflight ==> r < s.nextRequest
  }

  lemma ResolvedChat(s: State, s1: State, s2: State, chat: Chat)
    requires FreshAbove(s1) && s.nextRequest <= s1.nextRequest
    requires Tab(s1, chat) == Tab(s, chat) && TableResolved(s1, s2, chat)
    ensures ChatResolved(s, s2, chat)
  {
    hide Tab;
    var t := Tab(s, chat);
    forall m | m in t && t[m].requestId == 0
      ensures Sent(s, s2, chat, Tab(s2, chat)[m].requestId)
    {
      assert m in Unresolved(t);
    }
  }

  lemma ResolvedOther(s: State, s1: State, s2: State, chat: Chat, other: Chat)
    requires FreshAbove(s1) && other != chat && TableResolved(s1, s2, chat)
    requires ChatResolved(s, s1, other)
    ensures ChatResolved(s, s2, other)
  {
    hide Tab;
    assert forall r :: Sent(s, s1, other, r) ==> Sent(s, s2, other, r);
  }

  lemma ResolvedFlights(s: State, s1: State, s2: State, done: set<Chat>, chat: Chat)
    requires FreshAbove(s) && FreshAbove(s1) && chat !in done
    requires ResolvedUpTo(s, s1, done) && TableResolved(s1, s2, chat)
    ensures NewFlights(s, s2) && FreshAbove(s2)
    ensures forall r :: r in s2.inflight && r !in s.inflight ==> s2.inflight[r].chat in done + {chat}
  {
    hide Tab, ChatResolved;
    assert forall c, r :: Sent(s, s1, c, r) ==> Sent(s, s2, c, r);
  }

  lemma ResolvedOne(s: State, s1: State, s2: State, done: set<Chat>, chat: Chat)
    requires FreshAbove(s) && FreshAbove(s1) && chat !in done
    requires ResolvedUpTo(s, s1, done) && TableResolved(s1, s2, chat)
    ensures ResolvedUpTo(s, s2, done + {chat}) && FreshAbove(s2)
  {
    ResolvedFlights(s, s1, s2, done, chat);
    ResolvedChat(s, s1, s2, chat);
    forall other | other in done
      ensures ChatResolved(s, s2, other)
    {
      ResolvedOther(s, s1, s2, chat, other);
    }
    hide Tab, ChatResolved, NewFlights, FreshAbove;
  }

  lemma NothingLeft(s: State, s': State, done: set<Chat>)
    requires ResolvedUpTo(s, s', done)
    requires s.plain == map[] || Common in done
    requires forall c :: c in s.channels ==> Channel(c) in done
    ensures Resolved(s, s')
  {
    forall chat | chat !in done
      ensures Tab(s, chat) == map[]
    {
    }
    hide Tab;
  }
}
