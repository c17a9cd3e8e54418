/** Block and unblock when callbacks call them again: the callbacks of a replaced entry run
    in the middle of the call that replaces it, and those of a reply at its end. */
module BlockedReentrant {
  import opened BlockedPeers
  import opened Collections

  /** What a call in progress still has to do: a loop over callbacks, `inside` one of them or
      before the first, or the rest of the call that started such a loop. `done` is the
      callback passed to that call. */
  datatype Frame =
    | Running(callbacks: seq<Token>, value: bool, inside: bool)
    | Resuming(p: Peer, blocking: bool, done: Option<Token>)

  /** The calls in progress, the innermost first. */
  datatype Machine = Machine(s: State, stack: seq<Frame>)

  // ----- the moves

  /** The entry of p is erased, its callbacks are about to run. */
  function Taken(s: State, p: Peer): State
  {
    s.(requests := s.requests - {p}, waiting := map k | k in s.waiting && s.waiting[k] != p :: s.waiting[k])
  }

  function CallbacksOf(s: State, p: Peer): seq<Token> { if p in s.requests then s.requests[p].callbacks else [] }

  function Stored(s: State, p: Peer, k: Token): State
    requires p in s.requests
  {
    s.(requests := s.requests[p := s.requests[p].(callbacks := s.requests[p].callbacks + [k])],
       waiting := s.waiting[k := p])
  }

  /** The rest of a call: the request is sent, but an entry the callbacks have made stays. */
  function Resumed(s: State, f: Frame): State
    requires f.Resuming?
  {
    var s1 := s.(
      inflight := s.inflight[s.nextRequest := Flight(f.p, f.blocking)], nextRequest := s.nextRequest + 1,
      requests := if f.p in s.requests then s.requests else s.requests[f.p := Entry(s.nextRequest, f.blocking, [])]);
    if f.done.Some? then Stored(s1, f.p, f.done.value) else s1
  }

  /** Calls come from outside or from the callback that is running. */
  predicate MayCall(m: Machine) { m.stack == [] || (m.stack[0].Running? && m.stack[0].inside) }

  /** `blockAlreadySent` and what follows it. */
  function Entered(m: Machine, p: Peer, blocking: bool, done: bool): Machine
  {
    var k, s := m.s.nextToken, m.s;
    var s1 := if done then s.(nextToken := k + 1) else s;
    var rest := Resuming(p, blocking, if done then Some(k) else None);
    if AlreadySent(s, p, blocking) then m.(s := if done then Stored(s1, p, k) else s)
    else if p in s.requests then Machine(Taken(s1, p), [Running(CallbacksOf(s, p), false, false), rest] + m.stack)
    else m.(s := Resumed(s1, rest))
  }

  function BlockCalled(m: Machine, p: Peer): Machine
  {
    if p in m.s.blocked then m else Entered(m, p, true, false)
  }

  function UnblockCalled(m: Machine, p: Peer, done: bool, force: bool): Machine
  {
    if !force && p !in m.s.blocked then m else Entered(m, p, false, done)
  }

  /** The next callback of the innermost loop is run. */
  function NextRun(m: Machine): Machine
    requires m.stack != [] && m.stack[0].Running? && m.stack[0].callbacks != []
  {
    var f := m.stack[0];
    var k := f.callbacks[0];
    Machine(m.s.(fired := m.s.fired + [k], reported := m.s.reported[k := f.value]),
      [Running(f.callbacks[1..], f.value, true)] + m.stack[1..])
  }

  /** The innermost loop is over, and so is the call it belongs to. */
  function Ended(m: Machine): Machine
    requires m.stack != [] && m.stack[0].Running? && m.stack[0].callbacks == []
  {
    if |m.stack| > 1 && m.stack[1].Resuming? then Machine(Resumed(m.s, m.stack[1]), m.stack[2..])
    else m.(stack := m.stack[1..])
  }

  function Answered(m: Machine, r: ReqId, success: bool, now: int): Machine
    requires r in m.s.inflight
  {
    var f, s := m.s.inflight[r], m.s.(inflight := m.s.inflight - {r});
    var s1 := if !success then s else s.(
      blocked := if f.blocking then s.blocked + {f.peer} else s.blocked - {f.peer},
      slice := if s.slice.Some? then Some(SliceAfter(s.slice.value, f, now)) else None);
    if f.peer in s.requests then
      Machine(Taken(s1, f.peer), [Running(CallbacksOf(s, f.peer), success && !f.blocking, false)] + m.stack)
    else m.(s := s1)
  }

  datatype Move =
    | CallBlock(p: Peer)
    | CallUnblock(p: Peer, done: bool, force: bool)
    | Run
    | End
    | Answer(r: ReqId, success: bool, now: int)
    | Reload(count: int, list: seq<Item>)
    | Changed(p: Peer, isBlocked: bool)

  ghost predicate Moves(m: Machine, v: Move, m': Machine)
  {
    match v
    case CallBlock(p) => MayCall(m) && m' == BlockCalled(m, p)
    case CallUnblock(p, done, force) => MayCall(m) && m' == UnblockCalled(m, p, done, force)
    case Run => m.stack != [] && m.stack[0].Running? && m.stack[0].callbacks != [] && m' == NextRun(m)
    case End => m.stack != [] && m.stack[0].Running? && m.stack[0].callbacks == [] && m' == Ended(m)
    case Answer(r, success, now) => m.stack == [] && r in m.s.inflight && m' == Answered(m, r, success, now)
    case Reload(count, list) => m.stack == [] && m' == m.(s := Loaded(m.s, count, list))
    case Changed(p, isBlocked) =>
      m.stack == [] && m' == m.(s := m.s.(blocked := if isBlocked then m.s.blocked + {p} else m.s.blocked - {p}))
  }

  // ----- the invariant

  /** The callbacks held by calls in progress. */
  function HeldBy(f: Frame): seq<Token>
  {
    match f
    case Running(callbacks, _, _) => callbacks
    case Resuming(_, _, done) => if done.Some? then [done.value] else []
  }

  function Held(stack: seq<Frame>): seq<Token>
  {
    if stack == [] then [] else HeldBy(stack[0]) + Held(stack[1..])
  }

  /** Loops and rests of calls alternate, and only a loop that is inside a callback is called
      from. A call that goes on to unblock has replaced an entry without callbacks. */
  predicate Shaped(stack: seq<Frame>)
  {
    stack == [] || (
      && stack[0].Running?
      && (|stack| > 1 ==>
        && stack[1].Resuming?
        && (!stack[1].blocking ==> stack[0].callbacks == [] && !stack[0].inside)
        && (stack[1].blocking ==> stack[1].done.None?)
        && (|stack| > 2 ==> stack[2].Running? && stack[2].inside)
        && Shaped(stack[2..])))
  }

  /** While a call waits to unblock p, p has no entry. */
  predicate NoEntryFor(m: Machine)
  {
    |m.stack| > 1 && m.stack[1].Resuming? && !m.stack[1].blocking ==> m.stack[1].p !in m.s.requests
  }

  /** Every callback passed in is stored, held by a call in progress, or has run. */
  ghost predicate Tokens(s: State, held: seq<Token>)
  {
    && Distinct(s.fired) && Distinct(held)
    && (forall k :: k in s.waiting ==>
      s.waiting[k] in s.requests && k in s.requests[s.waiting[k]].callbacks && k !in s.fired && k !in held)
    && (forall k :: k in held ==> k !in s.fired)
    && (forall k: Token :: k < s.nextToken <==> k in s.waiting || k in held || k in s.fired)
  }

  ghost predicate Entries(s: State)
  {
    && (forall r :: r in s.inflight ==> r < s.nextRequest)
    && (forall p :: p in s.requests ==> EntryRight(s, p))
    && (s.slice.Some? ==> s.slice.value.total >= |s.slice.value.list|)
  }

  ghost predicate MachineInv(m: Machine)
  {
    Entries(m.s) && Tokens(m.s, Held(m.stack)) && Shaped(m.stack) && NoEntryFor(m)
  }

  // ----- callbacks change hands

  lemma SameHeld(s: State, h: seq<Token>, h': seq<Token>)
    requires Tokens(s, h) && Distinct(h') && forall k :: k in h <==> k in h'
    ensures Tokens(s, h')
  {
  }

  lemma TakenTokens(s: State, p: Peer, held: seq<Token>)
    requires Tokens(s, held) && p in s.requests && EntryRight(s, p)
    ensures Tokens(Taken(s, p), CallbacksOf(s, p) + held)
  {
    var q := CallbacksOf(s, p);
    assert forall k :: k in s.waiting && s.waiting[k] == p <==> k in q;
    DistinctConcat(q, held);
    assert forall k :: k in q + held <==> k in q || k in held;
  }

  lemma NewToken(s: State, held: seq<Token>)
    requires Tokens(s, held)
    ensures Tokens(s.(nextToken := s.nextToken + 1), [s.nextToken] + held)
  {
    var k := s.nextToken;
    DistinctSingle(k);
    DistinctConcat([k], held);
    assert forall j :: j in [k] + held <==> j == k || j in held;
  }

  lemma StoredTokens(s: State, p: Peer, k: Token, held: seq<Token>)
    requires Tokens(s, [k] + held) && p in s.requests
    ensures Tokens(Stored(s, p, k), held)
  {
    DistinctTail(k, held);
    var t := Stored(s, p, k);
    assert forall j :: j in [k] + held <==> j == k || j in held;
    forall j | j in t.waiting
      ensures t.waiting[j] in t.requests && j in t.requests[t.waiting[j]].callbacks && j !in t.fired && j !in held
    {
      if j != k {
        assert j in s.requests[s.waiting[j]].callbacks;
      }
    }
  }

  lemma DistinctTail(k: Token, held: seq<Token>)
    requires Distinct([k] + held)
    ensures Distinct(held) && k !in held
  {
    var all := [k] + held;
    assert forall i :: 0 <= i < |held| ==> held[i] == all[i + 1];
    assert all[0] == k;
  }

  lemma RunTokens(s: State, k: Token, value: bool, held: seq<Token>)
    requires Tokens(s, [k] + held)
    ensures Tokens(s.(fired := s.fired + [k], reported := s.reported[k := value]), held)
  {
    DistinctTail(k, held);
    assert forall j :: j in [k] + held <==> j == k || j in held;
    DistinctSingle(k);
    DistinctConcat(s.fired, [k]);
  }

  // ----- entries

  lemma TakenEntries(s: State, p: Peer)
    requires Entries(s)
    requires forall k :: k in s.waiting ==> s.waiting[k] in s.requests && k in s.requests[s.waiting[k]].callbacks
    ensures Entries(Taken(s, p)) && p !in Taken(s, p).requests
  {
    forall q | q in Taken(s, p).requests
      ensures EntryRight(Taken(s, p), q)
    {
      assert EntryRight(s, q);
    }
  }

  lemma StoredEntries(s: State, p: Peer, k: Token)
    requires Entries(s) && p in s.requests && !s.requests[p].blocking && k !in s.waiting
    ensures Entries(Stored(s, p, k))
  {
    var t, q := Stored(s, p, k), s.requests[p].callbacks;
    assert EntryRight(s, p);
    DistinctSingle(k);
    DistinctConcat(q, [k]);
    hide Distinct;
    forall x | x in t.requests
      ensures EntryRight(t, x)
    {
      assert EntryRight(s, x);
    }
    hide EntryRight;
  }

  /** The request of a resumed call, without its callback. */
  lemma SentEntries(s: State, f: Frame)
    requires Entries(s) && f.Resuming?
    ensures var t := Resumed(s, f.(done := None)); Entries(t) && f.p in t.requests
  {
    var t := Resumed(s, f.(done := None));
    DistinctEmpty<Token>();
    hide Distinct;
    forall q | q in t.requests
      ensures EntryRight(t, q)
    {
      if q in s.requests {
        assert EntryRight(s, q);
      }
    }
    hide EntryRight;
  }

  lemma SentTokens(s: State, f: Frame, held: seq<Token>)
    requires Tokens(s, held) && f.Resuming?
    ensures Tokens(Resumed(s, f.(done := None)), held)
  {
  }

  /** The rest of a call keeps everything: if it stores a callback, it does so in an entry of
      its own. */
  lemma ResumedInv(s: State, f: Frame, held: seq<Token>)
    requires Entries(s) && Tokens(s, HeldBy(f) + held) && f.Resuming?
    requires f.blocking ==> f.done.None?
    requires !f.blocking ==> f.p !in s.requests
    ensures Entries(Resumed(s, f)) && Tokens(Resumed(s, f), held)
  {
    var t := Resumed(s, f.(done := None));
    SentEntries(s, f);
    SentTokens(s, f, HeldBy(f) + held);
    if f.done.Some? {
      var k := f.done.value;
      assert k in [k] + held;
      assert k !in t.waiting by { hide Distinct; }
      StoredEntries(t, f.p, k);
      StoredTokens(t, f.p, k, held);
      assert Resumed(s, f) == Stored(t, f.p, k);
    } else {
      assert HeldBy(f) + held == held;
    }
  }

  // ----- every move keeps the invariant

  lemma EnteredInv(m: Machine, p: Peer, blocking: bool, done: bool)
    requires MachineInv(m) && MayCall(m) && (blocking ==> !done)
    ensures MachineInv(Entered(m, p, blocking, done))
  {
    hide Tokens, Entries, EntryRight, Resumed, Taken, Stored;
    var k, s, held := m.s.nextToken, m.s, Held(m.stack);
    var s1 := if done then s.(nextToken := k + 1) else s;
    var mine: seq<Token> := if done then [k] else [];
    assert Entries(s1) && Tokens(s1, mine + held) by {
      NewToken(s, held);
      CountEntries(s, s1);
      assert [] + held == held;
    }
    var rest := Resuming(p, blocking, if done then Some(k) else None);
    assert HeldBy(rest) == mine;
    if AlreadySent(s, p, blocking) {
      if done {
        FreshToken(s, held);
        StoredEntries(s1, p, k);
        StoredTokens(s1, p, k, held);
        StoredShape(s1, p, k);
      }
    } else if p in s.requests {
      var e := s.requests[p];
      assert blocking == !e.blocking && EntryRight(s1, p) by { EntryAt(s1, p); }
      assert !blocking ==> e.callbacks == [] by { EntryAt(s, p); BlockingEmpty(s, p); }
      ReplacedInv(m, s1, p, rest, held);
    } else {
      ResumedInv(s1, rest, held);
      ResumedShape(s1, rest);
    }
  }

  lemma CountEntries(s: State, s1: State)
    requires Entries(s) && s1 == s.(nextToken := s1.nextToken)
    ensures Entries(s1)
  {
    assert forall q :: q in s.requests ==> EntryRight(s, q) && EntryRight(s1, q);
  }

  lemma FreshToken(s: State, held: seq<Token>)
    requires Tokens(s, held)
    ensures s.nextToken !in s.waiting
  {
  }

  lemma EntryAt(s: State, p: Peer)
    requires Entries(s) && p in s.requests
    ensures EntryRight(s, p)
  {
  }

  lemma BlockingEmpty(s: State, p: Peer)
    requires p in s.requests && EntryRight(s, p)
    ensures s.requests[p].blocking ==> s.requests[p].callbacks == []
  {
  }

  /** Which entries there are afterwards. */
  lemma StoredShape(s: State, p: Peer, k: Token)
    requires p in s.requests
    ensures Stored(s, p, k).requests.Keys == s.requests.Keys
  {
  }

  lemma ResumedShape(s: State, f: Frame)
    requires f.Resuming?
    ensures Resumed(s, f).requests.Keys == s.requests.Keys + {f.p}
  {
  }

  /** An entry gives way to the loop over its callbacks and the rest of the call. */
  lemma ReplacedInv(m: Machine, s1: State, p: Peer, rest: Frame, held: seq<Token>)
    requires Entries(s1) && p in s1.requests && rest.Resuming? && rest.p == p
    requires Tokens(s1, HeldBy(rest) + held) && held == Held(m.stack)
    requires Shaped(m.stack) && MayCall(m)
    requires rest.blocking ==> rest.done.None?
    requires !rest.blocking ==> CallbacksOf(s1, p) == []
    ensures MachineInv(Machine(Taken(s1, p), [Running(CallbacksOf(s1, p), false, false), rest] + m.stack))
  {
    var run := Running(CallbacksOf(s1, p), false, false);
    var stack := [run, rest] + m.stack;
    assert EntryRight(s1, p);
    TakenTokens(s1, p, HeldBy(rest) + held);
    StoredSomewhere(s1, HeldBy(rest) + held);
    TakenEntries(s1, p);
    hide Tokens, Entries, EntryRight, Taken;
    assert stack[1..] == [rest] + m.stack && stack[1..][1..] == m.stack == stack[2..];
    assert Held(stack[1..]) == HeldBy(rest) + held;
    assert Held(stack) == CallbacksOf(s1, p) + (HeldBy(rest) + held);
  }

  lemma StoredSomewhere(s: State, held: seq<Token>)
    requires Tokens(s, held)
    ensures forall k :: k in s.waiting ==> s.waiting[k] in s.requests && k in s.requests[s.waiting[k]].callbacks
  {
  }

  lemma NextRunInv(m: Machine)
    requires MachineInv(m) && m.stack != [] && m.stack[0].Running? && m.stack[0].callbacks != []
    ensures MachineInv(NextRun(m))
  {
    hide Tokens, Entries, EntryRight;
    var f, m' := m.stack[0], NextRun(m);
    NextRunHeld(m);
    RunTokens(m.s, f.callbacks[0], f.value, Held(m'.stack));
    HistoryEntries(m.s, m'.s);
    hide Held;
    assert |m.stack| > 1 ==> m'.stack[2..] == m.stack[2..];
  }

  lemma NextRunHeld(m: Machine)
    requires m.stack != [] && m.stack[0].Running? && m.stack[0].callbacks != []
    ensures Held(m.stack) == [m.stack[0].callbacks[0]] + Held(NextRun(m).stack)
  {
    var q, rest := m.stack[0].callbacks, Held(m.stack[1..]);
    assert NextRun(m).stack[1..] == m.stack[1..];
    assert q == [q[0]] + q[1..];
    assert ([q[0]] + q[1..]) + rest == [q[0]] + (q[1..] + rest);
  }

  lemma HistoryEntries(s: State, t: State)
    requires Entries(s) && t == s.(fired := t.fired, reported := t.reported)
    ensures Entries(t)
  {
    assert forall q :: q in s.requests ==> EntryRight(s, q) && EntryRight(t, q);
  }

  lemma EndedInv(m: Machine)
    requires MachineInv(m) && m.stack != [] && m.stack[0].Running? && m.stack[0].callbacks == []
    ensures MachineInv(Ended(m))
  {
    hide Tokens, Entries, Resumed;
    var rest := m.stack[1..];
    assert Held(m.stack) == [] + Held(rest) == Held(rest);
    if |m.stack| > 1 {
      var f := m.stack[1];
      assert rest[1..] == m.stack[2..] && Held(rest) == HeldBy(f) + Held(m.stack[2..]);
      ResumedInv(m.s, f, Held(m.stack[2..]));
    }
  }

  lemma AnsweredInv(m: Machine, r: ReqId, success: bool, now: int)
    requires MachineInv(m) && m.stack == [] && r in m.s.inflight
    ensures MachineInv(Answered(m, r, success, now))
  {
    var f, s := m.s.inflight[r], m.s;
    var m' := Answered(m, r, success, now);
    AnsweredEntries(m, r, success, now);
    hide Entries, EntryRight;
    if f.peer in s.requests {
      assert EntryRight(s, f.peer) by { EntryAt(s, f.peer); }
      TakenTokens(s, f.peer, []);
      var q := CallbacksOf(s, f.peer);
      var stack := [Running(q, success && !f.blocking, false)] + [];
      assert m'.stack == stack && stack[1..] == [] && Held(stack) == q + [];
      SameCallbacks(Taken(s, f.peer), m'.s, q + []);
    } else {
      SameCallbacks(s, m'.s, []);
    }
    hide Tokens, Taken;
  }

  lemma AnsweredEntries(m: Machine, r: ReqId, success: bool, now: int)
    requires Entries(m.s) && r in m.s.inflight
    ensures Entries(Answered(m, r, success, now).s)
  {
    var f, s := m.s.inflight[r], m.s;
    if success && s.slice.Some? {
      ErasedLength(s.slice.value.list, f.peer);
    }
    var t := Answered(m, r, success, now).s;
    hide Distinct;
    forall q | q in t.requests
      ensures EntryRight(t, q)
    {
      assert EntryRight(s, q);
    }
    hide EntryRight;
  }

  lemma SameCallbacks(s: State, t: State, held: seq<Token>)
    requires Tokens(s, held)
    requires t.requests == s.requests && t.waiting == s.waiting && t.fired == s.fired && t.nextToken == s.nextToken
    ensures Tokens(t, held)
  {
  }

  lemma StepKeeps(m: Machine, v: Move, m': Machine)
    requires MachineInv(m) && Moves(m, v, m')
    ensures MachineInv(m')
  {
    hide MachineInv, Entered, NextRun, Ended, Answered, MayCall;
    match v {
      case CallBlock(p) => EnteredInv(m, p, true, false);
      case CallUnblock(p, done, force) => EnteredInv(m, p, false, done);
      case Run => NextRunInv(m);
      case End => EndedInv(m);
      case Answer(r, success, now) => AnsweredInv(m, r, success, now);
      case Reload(count, list) => OutsideInv(m, m');
      case Changed(p, isBlocked) => OutsideInv(m, m');
    }
  }

  lemma OutsideInv(m: Machine, m': Machine)
    requires MachineInv(m) && m' == m.(s := m.s.(slice := m'.s.slice, blocked := m'.s.blocked))
    requires m'.s.slice.Some? ==> m'.s.slice == m.s.slice || m'.s.slice.value.total >= |m'.s.slice.value.list|
    ensures MachineInv(m')
  {
    assert forall q :: q in m.s.requests ==> EntryRight(m.s, q) && EntryRight(m'.s, q);
    SameCallbacks(m.s, m'.s, Held(m.stack));
    hide Tokens, EntryRight;
  }

  ghost predicate IsReentrantRun(ms: seq<Machine>, moves: seq<Move>)
  {
    && |ms| == |moves| + 1 && ms[0] == Machine(START, [])
    && forall i :: 0 <= i < |moves| ==> Moves(ms[i], moves[i], ms[i + 1])
  }

  lemma {:induction false} ReentrantRunInv(ms: seq<Machine>, moves: seq<Move>)
    requires IsReentrantRun(ms, moves)
    ensures MachineInv(ms[|moves|])
  {
    hide Moves;
    if moves == [] {
      StartInv();
    } else {
      var n := |moves| - 1;
      ReentrantRunInv(ms[..n + 1], moves[..n]);
      StepKeeps(ms[n], moves[n], ms[n + 1]);
    }
  }

  lemma StartInv()
    ensures MachineInv(Machine(START, []))
  {
  }

  /** Callbacks may call again as they like: each still runs at most once, and exactly once
      when no call is in progress and every request has been answered. */
  lemma AllAnsweredAllRun(ms: seq<Machine>, moves: seq<Move>)
    requires IsReentrantRun(ms, moves)
    ensures var m := ms[|moves|];
      && Distinct(m.s.fired)
      && (m.stack == [] && m.s.inflight == map[] ==> forall k: Token :: k < m.s.nextToken <==> k in m.s.fired)
  {
    ReentrantRunInv(ms, moves);
    var s := ms[|moves|].s;
    if k: Token :| k in s.waiting {
      assert EntryRight(s, s.waiting[k]);
    }
  }

  // ----- what calling again does change

  /** The entry of a peer belongs to the latest of its requests. */
  ghost predicate Newest(s: State)
  {
    forall p, r :: p in s.requests && r in s.inflight && s.inflight[r].peer == p ==> r <= s.requests[p].requestId
  }

  /** That is lost exactly when a callback has made an entry for the peer whose call it ran in:
      the request of that call is the later one, and has no entry. */
  lemma ResumedNewestExactlyWhen(s: State, f: Frame)
    requires Entries(s) && Newest(s) && f.Resuming?
    ensures Newest(Resumed(s, f)) <==> f.p !in s.requests
  {
    var t := Resumed(s, f);
    assert s.nextRequest in t.inflight && t.inflight[s.nextRequest].peer == f.p;
    if f.p in s.requests {
      assert EntryRight(s, f.p);
      assert t.requests[f.p].requestId < s.nextRequest;
    }
  }

  /** The end of a call into which a callback has cut. */
  predicate CutInto(m: Machine, v: Move)
  {
    v.End? && |m.stack| > 1 && m.stack[1].Resuming? && m.stack[1].p in m.s.requests
  }

  /** No other move does it. */
  lemma NewestKeptExactlyWhen(m: Machine, v: Move, m': Machine)
    requires MachineInv(m) && Newest(m.s) && Moves(m, v, m')
    ensures Newest(m'.s) <==> !CutInto(m, v)
  {
    hide Tokens, Distinct, Shaped, Erased, SliceAfter;
    match v {
      case CallBlock(p) => EnteredNewest(m, p, true, false);
      case CallUnblock(p, done, force) => EnteredNewest(m, p, false, done);
      case Run =>
      case End =>
        if |m.stack| > 1 && m.stack[1].Resuming? {
          ResumedNewestExactlyWhen(m.s, m.stack[1]);
        }
      case Answer(r, success, now) =>
      case Reload(count, list) =>
      case Changed(p, isBlocked) =>
    }
  }

  lemma EnteredNewest(m: Machine, p: Peer, blocking: bool, done: bool)
    requires Entries(m.s) && Newest(m.s)
    ensures Newest(Entered(m, p, blocking, done).s)
  {
    var k, s := m.s.nextToken, m.s;
    if !AlreadySent(s, p, blocking) && p !in s.requests {
      var s1 := if done then s.(nextToken := k + 1) else s;
      CountEntries(s, s1);
      ResumedNewestExactlyWhen(s1, Resuming(p, blocking, if done then Some(k) else None));
    }
  }

  lemma NotNewest(s: State, p: Peer, r: ReqId)
    requires p in s.requests && r in s.inflight && s.inflight[r].peer == p && r > s.requests[p].requestId
    ensures !Newest(s)
  {
  }

  /** And that happens: unblock with a callback, then block; the callback unblocks again. The
      request to block is sent last, but the entry says that the peer is being unblocked. */
  lemma CallbackOvertaken(p: Peer) returns (ms: seq<Machine>, moves: seq<Move>)
    ensures IsReentrantRun(ms, moves)
    ensures var s := ms[|moves|].s;
      && ms[|moves|].stack == [] && p in s.requests && s.requests[p] == Entry(2, false, [1])
      && 3 in s.inflight && s.inflight[3] == Flight(p, true) && !Newest(s)
  {
    hide Held, Distinct, Newest;
    var m0 := Machine(START, []);
    var m1 := UnblockCalled(m0, p, true, true);
    var none: seq<Token> := [];
    assert none + [0] == [0] && none + [1] == [1];
    assert m1.s.requests[p] == Entry(1, false, [0]) && m1.s.requests.Keys == {p} && m1.stack == [];
    var m2 := BlockCalled(m1, p);
    assert m2.stack == [Running([0], false, false), Resuming(p, true, None)] && p !in m2.s.requests;
    var m3 := NextRun(m2);
    assert m2.stack[0].callbacks[1..] == none && m2.stack[1..] == [Resuming(p, true, None)];
    assert m3.stack == [Running([], false, true), Resuming(p, true, None)] && p !in m3.s.requests;
    var m4 := UnblockCalled(m3, p, true, true);
    assert m4.s.requests[p] == Entry(2, false, [1]) && m4.stack == m3.stack;
    var m5 := Ended(m4);
    assert m5.stack == [] && m5.s.requests == m4.s.requests;
    NotNewest(m5.s, p, 3);
    ms := [m0, m1, m2, m3, m4, m5];
    moves := [CallUnblock(p, true, true), CallBlock(p), Run, CallUnblock(p, true, true), End];
    assert Moves(ms[0], moves[0], ms[1]) && Moves(ms[1], moves[1], ms[2]) && Moves(ms[2], moves[2], ms[3]);
    assert Moves(ms[3], moves[3], ms[4]) && Moves(ms[4], moves[4], ms[5]);
  }

  // ----- callbacks that do not call again

  /** The rest of a loop, with no call from inside a callback. */
  function RunOut(m: Machine): Machine
    requires m.stack != [] && m.stack[0].Running?
    decreases |HeldBy(m.stack[0])|
  {
    if m.stack[0].callbacks == [] then m else RunOut(NextRun(m))
  }

  lemma {:induction false} RunOutIs(m: Machine)
    requires m.stack != [] && m.stack[0].Running?
    ensures var f, t := m.stack[0], RunOut(m);
      && t.s == m.s.(fired := m.s.fired + f.callbacks, reported := m.s.reported + map k | k in f.callbacks :: f.value)
      && |t.stack| == |m.stack| && t.stack[1..] == m.stack[1..]
      && t.stack[0].Running? && t.stack[0].callbacks == []
    decreases |HeldBy(m.stack[0])|
  {
    var f := m.stack[0];
    if f.callbacks == [] {
      assert m.s.fired + [] == m.s.fired;
      ReportedNoMore(m.s.reported, f.callbacks, f.value);
    } else {
      var n, q := NextRun(m), f.callbacks[1..];
      assert n.stack[1..] == m.stack[1..];
      RunOutIs(n);
      assert f.callbacks == [f.callbacks[0]] + q;
      assert m.s.fired + f.callbacks == (m.s.fired + [f.callbacks[0]]) + q;
      ReportedOneMore(m.s.reported, f.callbacks, f.value);
    }
  }

  lemma ReportedNoMore(reported: map<Token, bool>, callbacks: seq<Token>, value: bool)
    requires callbacks == []
    ensures reported + (map k | k in callbacks :: value) == reported
  {
  }

  lemma ReportedOneMore(reported: map<Token, bool>, callbacks: seq<Token>, value: bool)
    requires callbacks != []
    ensures reported[callbacks[0] := value] + (map k | k in callbacks[1..] :: value)
         == reported + map k | k in callbacks :: value
  {
    assert forall k :: k in callbacks <==> k == callbacks[0] || k in callbacks[1..];
  }

  /** A call or a reply carried to its end. */
  function Completed(m: Machine): Machine
    requires m.stack == [] || m.stack[0].Running?
  {
    if m.stack == [] then m
    else
      var t := RunOut(m);
      RunOutIs(m);
      Ended(t)
  }

  /** Then the moves add up to the steps of the model without calls from callbacks. */
  lemma QuietBlock(s: State, p: Peer)
    ensures var m := BlockCalled(Machine(s, []), p);
      (m.stack == [] || m.stack[0].Running?) && Completed(m) == Machine(Block(s, p), [])
  {
    var m := BlockCalled(Machine(s, []), p);
    if m.stack != [] {
      RunOutIs(m);
    }
  }

  lemma QuietUnblock(s: State, p: Peer, done: bool, force: bool)
    ensures var m := UnblockCalled(Machine(s, []), p, done, force);
      (m.stack == [] || m.stack[0].Running?) && Completed(m) == Machine(Unblock(s, p, done, force), [])
  {
    var m := UnblockCalled(Machine(s, []), p, done, force);
    if m.stack != [] {
      RunOutIs(m);
    }
  }

  lemma QuietAnswer(s: State, r: ReqId, success: bool, now: int)
    requires r in s.inflight
    ensures var m := Answered(Machine(s, []), r, success, now);
      (m.stack == [] || m.stack[0].Running?) && Completed(m) == Machine(Replied(s, r, success, now), [])
  {
    hide SliceAfter;
    var m := Answered(Machine(s, []), r, success, now);
    if m.stack != [] {
      RunOutIs(m);
    }
  }
}
