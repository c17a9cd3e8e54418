/** Searching inside one chat: the first page of a request is cached under its token, and
    replies to anything but the current request are ignored. */
module MessagesSearch {
  import opened Collections
  import opened SearchToken

  type MsgId = int
  type ReqId = nat
  type Peer = nat

  /** A message of a reply, and the identity of the item it becomes. */
  datatype Message = Message(id: MsgId, peer: Peer, date: int)
  datatype FullId = FullId(peer: Peer, msg: MsgId)

  /** The four shapes of a reply. */
  datatype Page =
    | Messages(messages: seq<Message>)
    | Slice(count: int, messages: seq<Message>)
    | ChannelMessages(count: int, messages: seq<Message>)
    | NotModified

  datatype Found = Found(total: int, messages: seq<FullId>, token: string)

  /** The messages that become items: those with a date whose peer is loaded. */
  function Items(messages: seq<Message>, loaded: set<Peer>): seq<FullId>
  {
    if messages == [] then []
    else
      var m := messages[|messages| - 1];
      Items(messages[..|messages| - 1], loaded)
        + if m.peer in loaded && m.date != 0 then [FullId(m.peer, m.id)] else []
  }

  method HistoryItemsFromTL(messages: seq<Message>, loaded: set<Peer>) returns (result: seq<FullId>)
    ensures result == Items(messages, loaded)
  {
    result := [];
    for i := 0 to |messages|
      invariant result == Items(messages[..i], loaded)
    {
      var m := messages[i];
      assert messages[..i + 1][..i] == messages[..i];
      if m.peer in loaded {
        if m.date != 0 {
          result := result + [FullId(m.peer, m.id)];
        }
      }
    }
    assert messages[..|messages|] == messages;
  }

  /** The totals count what the server sent, the list what became of it. */
  function FoundIn(page: Page, loaded: set<Peer>, token: string): Found
  {
    match page
    case Messages(messages) => Found(|messages|, Items(messages, loaded), token)
    case Slice(count, messages) => Found(count, Items(messages, loaded), token)
    case ChannelMessages(count, messages) => Found(count, Items(messages, loaded), token)
    case NotModified => Found(-1, [], "")
  }

  function OffsetAfter(found: Found): MsgId
  {
    if found.messages == [] then 0 else found.messages[|found.messages| - 1].msg
  }

  datatype Flight = Flight(request: Request, offset: MsgId, token: string)

  /** One answer of the server. */
  datatype Answer = Answer(request: Request, offset: MsgId, page: Page)

  /** `origin`, `asked` and `answers` are history: the request whose reply was cached, all
      requests ever searched for, all answers received. */
  datatype State = State(
    request: Request, offset: MsgId, requestId: ReqId, searchInHistory: nat,
    cache: map<string, Page>, inflight: map<ReqId, Flight>, nextRequest: ReqId, fired: seq<Found>,
    origin: map<string, Request>, asked: set<Request>, answers: set<Answer>)

  ghost predicate Inv(s: State)
  {
    CurrentRight(s) && CacheRight(s)
  }

  /** The request in flight under the current number is the current one. */
  ghost predicate CurrentRight(s: State)
  {
    && s.nextRequest > 0 && s.request in s.asked
    && (forall r :: r in s.inflight ==> 0 < r < s.nextRequest)
    && (forall r :: r in s.inflight ==>
      s.inflight[r].token == Token(s.inflight[r].request) && s.inflight[r].request in s.asked)
    && (s.requestId != 0 ==>
      s.requestId in s.inflight && s.inflight[s.requestId] == Flight(s.request, s.offset, Token(s.request)))
  }

  ghost predicate CacheRight(s: State)
  {
    && s.origin.Keys == s.cache.Keys
    && (forall t :: t in s.cache ==> CachedRight(s, t))
  }

  /** A cached page was received for a first-page request with that token. */
  ghost predicate CachedRight(s: State, t: string)
    requires t in s.cache && t in s.origin
  {
    && s.origin[t] in s.asked && Token(s.origin[t]) == t
    && Answer(s.origin[t], 0, s.cache[t]) in s.answers
  }

  /** If no searched text holds a line break, a page taken from the cache was received for a
      request that differs from the one searched now in blank tags only; so for exactly that
      one if it has none. */
  lemma CacheHitExact(s: State, request: Request)
    requires Inv(s) && Token(request) in s.cache
    requires LineFree(request) && forall a :: a in s.asked ==> LineFree(a)
    ensures exists a :: a in s.asked && SameRequest(a, request) && Answer(a, 0, s.cache[Token(request)]) in s.answers
    ensures !HasBlank(request) ==> Answer(request, 0, s.cache[Token(request)]) in s.answers
  {
    var t := Token(request);
    assert CacheRight(s) && CachedRight(s, t);
    var a := s.origin[t];
    TokenExact(a, request);
    if !HasBlank(request) {
      assert forall i :: 0 <= i < |request.tags| ==> request.tags[i] in request.tags;
      assert a == request;
    }
  }

  /** Messages become items one by one, in order. */
  lemma {:induction false} ItemsFiltered(a: seq<Message>, b: seq<Message>, loaded: set<Peer>)
    ensures Items(a + b, loaded) == Items(a, loaded) + Items(b, loaded)
    ensures |a| == 1 ==>
      Items(a, loaded) == if a[0].peer in loaded && a[0].date != 0 then [FullId(a[0].peer, a[0].id)] else []
  {
    assert |a| == 1 ==> a[..0] == [] && a == [a[0]];
    if b == [] {
      assert a + b == a;
    } else {
      assert (a + b)[..|a + b| - 1] == a + b[..|b| - 1];
      ItemsFiltered(a, b[..|b| - 1], loaded);
    }
  }

  // ----- the steps

  /** `searchReceived`, for the cached page (requestId 0) or a reply. */
  function Received(s: State, page: Page, requestId: ReqId, token: string, loaded: set<Peer>): State
  {
    if requestId != s.requestId then s
    else
      var found := FoundIn(page, loaded, token);
      var first := s.offset == 0 && token !in s.cache;
      s.(cache := if first then s.cache[token := page] else s.cache,
         origin := if first then s.origin[token := s.request] else s.origin,
         requestId := 0, offset := OffsetAfter(found), fired := s.fired + [found])
  }

  /** `searchRequest`, dispatched at once; `h` is the number of the history request. */
  function Requested(s: State, h: nat, loaded: set<Peer>): State
  {
    var token := Token(s.request);
    if s.offset == 0 && token in s.cache then Received(s.(requestId := 0), s.cache[token], 0, token, loaded)
    else s.(requestId := s.nextRequest, nextRequest := s.nextRequest + 1, searchInHistory := h,
            inflight := s.inflight[s.nextRequest := Flight(s.request, s.offset, token)])
  }

  function Searched(s: State, request: Request, h: nat, loaded: set<Peer>): State
  {
    Requested(s.(request := request, offset := 0, asked := s.asked + {request}), h, loaded)
  }

  function SearchedMore(s: State, h: nat, loaded: set<Peer>): State
  {
    if s.searchInHistory != 0 || s.requestId != 0 then s else Requested(s, h, loaded)
  }

  function Replied(s: State, r: ReqId, page: Page, loaded: set<Peer>): State
    requires r in s.inflight
  {
    var f := s.inflight[r];
    Received(s.(inflight := s.inflight - {r}, searchInHistory := 0,
      answers := s.answers + {Answer(f.request, f.offset, page)}), page, r, f.token, loaded)
  }

  function Failed(s: State, r: ReqId, emptyQuery: bool): State
    requires r in s.inflight
  {
    var s1 := s.(inflight := s.inflight - {r}, searchInHistory := 0, requestId := if s.requestId == r then 0
      else s.requestId);
    if emptyQuery then s1.(fired := s1.fired + [Found(0, [], s.inflight[r].token)]) else s1
  }

  /** `loaded` is the set of peers the session knows when messages are turned into items. */
  datatype Event =
    | Search(request: Request, h: nat, loaded: set<Peer>)
    | More(h: nat, loaded: set<Peer>)
    | Reply(r: ReqId, page: Page, loaded: set<Peer>)
    | Fail(r: ReqId, emptyQuery: bool)

  ghost predicate Step(s: State, e: Event, s': State)
  {
    match e
    case Search(request, h, loaded) => h > 0 && s' == Searched(s, request, h, loaded)
    case More(h, loaded) => h > 0 && s' == SearchedMore(s, h, loaded)
    case Reply(r, page, loaded) => r in s.inflight && s' == Replied(s, r, page, loaded)
    case Fail(r, emptyQuery) => r in s.inflight && s' == Failed(s, r, emptyQuery)
  }

  lemma ReceivedCache(s: State, page: Page, id: ReqId, token: string, loaded: set<Peer>)
    requires CacheRight(s)
    requires id == s.requestId && s.offset == 0 && token !in s.cache ==>
      s.request in s.asked && Token(s.request) == token && Answer(s.request, 0, page) in s.answers
    ensures CacheRight(Received(s, page, id, token, loaded))
  {
    hide Token;
    var s' := Received(s, page, id, token, loaded);
    forall t | t in s'.cache
      ensures t in s'.origin && CachedRight(s', t)
    {
      if t in s.cache {
        assert CachedRight(s, t);
      }
    }
  }

  lemma SameCache(s: State, s': State)
    requires CacheRight(s) && s'.cache == s.cache && s'.origin == s.origin && s.asked <= s'.asked
      && s.answers <= s'.answers
    ensures CacheRight(s')
  {
    hide Token;
    forall t | t in s'.cache
      ensures t in s'.origin && CachedRight(s', t)
    {
      assert CachedRight(s, t);
    }
  }

  lemma RequestedInv(s: State, h: nat, loaded: set<Peer>)
    requires CacheRight(s) && CurrentRight(s.(requestId := 0))
    ensures Inv(Requested(s, h, loaded))
  {
    hide Token, CachedRight;
    var token := Token(s.request);
    if s.offset == 0 && token in s.cache {
      SameCache(s, s.(requestId := 0));
      ReceivedCache(s.(requestId := 0), s.cache[token], 0, token, loaded);
    } else {
      SameCache(s, Requested(s, h, loaded));
    }
  }

  lemma StepInv(s: State, e: Event, s': State)
    requires Inv(s) && Step(s, e, s')
    ensures Inv(s')
  {
    hide Token, CacheRight, Requested;
    match e {
      case Search(request, h, loaded) =>
        var s1 := s.(request := request, offset := 0, asked := s.asked + {request});
        SameCache(s, s1);
        RequestedInv(s1, h, loaded);
      case More(h, loaded) =>
        if s.searchInHistory == 0 && s.requestId == 0 {
          RequestedInv(s, h, loaded);
        }
      case Reply(r, page, loaded) =>
        var f := s.inflight[r];
        var s1 := s.(inflight := s.inflight - {r}, searchInHistory := 0,
          answers := s.answers + {Answer(f.request, f.offset, page)});
        SameCache(s, s1);
        ReceivedCache(s1, page, r, f.token, loaded);
      case Fail(r, emptyQuery) =>
        SameCache(s, s');
    }
  }

  /** A reply to anything but the current request changes no cached page and no offset,
      and fires nothing. */
  lemma StaleReplyIgnored(s: State, r: ReqId, page: Page, loaded: set<Peer>)
    requires Inv(s) && r in s.inflight && r != s.requestId
    ensures var s' := Replied(s, r, page, loaded);
      && s'.cache == s.cache && s'.offset == s.offset && s'.request == s.request
      && s'.requestId == s.requestId && s'.fired == s.fired
  {
  }

  // ----- searching goes on

  /** A search either shows the cached first page at once, or its request is in flight from the
      start, under the current number. */
  lemma SearchGoes(s: State, request: Request, h: nat, loaded: set<Peer>)
    ensures var t, token := Searched(s, request, h, loaded), Token(request);
      && t.request == request
      && (token in s.cache ==> t.fired == s.fired + [FoundIn(s.cache[token], loaded, token)] && t.requestId == 0)
      && (token !in s.cache ==>
            t.requestId in t.inflight && t.inflight[t.requestId] == Flight(request, 0, token)
            && t.requestId == s.nextRequest && t.fired == s.fired)
  {
    hide Token, Items;
  }

  /** The reply to the current request is shown, with the server's total, and the next page
      starts behind its last item. */
  lemma ReplyShown(s: State, r: ReqId, page: Page, loaded: set<Peer>)
    requires Inv(s) && r in s.inflight && r == s.requestId && !page.NotModified?
    ensures var t, f := Replied(s, r, page, loaded), s.inflight[r];
      var total := if page.Messages? then |page.messages| else page.count;
      var items := Items(page.messages, loaded);
      && t.fired == s.fired + [Found(total, items, f.token)] && t.requestId == 0
      && t.offset == (if items == [] then 0 else items[|items| - 1].msg)
      && (s.offset == 0 ==> f.token in t.cache && (f.token !in s.cache ==> t.cache[f.token] == page))
      && (forall k :: k in s.cache ==> k in t.cache && t.cache[k] == s.cache[k])
  {
    hide Token, Items, CacheRight;
  }

  /** Then more asks for exactly that page of the same request. */
  lemma MoreGoes(s: State, h: nat, loaded: set<Peer>)
    requires s.searchInHistory == 0 && s.requestId == 0 && s.offset != 0
    ensures var t := SearchedMore(s, h, loaded);
      && t.requestId in t.inflight && t.inflight[t.requestId] == Flight(s.request, s.offset, Token(s.request))
      && t.fired == s.fired && t.request == s.request
  {
    hide Token, Items;
  }

  /** After a page without items there is no such page: more shows the first one again. */
  lemma EndRestarts(s: State, r: ReqId, page: Page, h: nat, loaded: set<Peer>)
    requires Inv(s) && r in s.inflight && r == s.requestId && !page.NotModified? && Items(page.messages, loaded) == []
    requires Token(s.request) in s.cache
    ensures var token := Token(s.request);
      SearchedMore(Replied(s, r, page, loaded), h, loaded).fired
        == Replied(s, r, page, loaded).fired + [FoundIn(s.cache[token], loaded, token)]
  {
    hide Token, CacheRight;
  }

  const NO_REQUEST := Request("", None, [])
  const START := State(NO_REQUEST, 0, 0, 0, map[], map[], 1, [], map[], {NO_REQUEST}, {})

  ghost predicate IsRun(states: seq<State>, events: seq<Event>)
  {
    && |states| == |events| + 1 && states[0] == START
    && forall i :: 0 <= i < |events| ==> Step(states[i], events[i], states[i + 1])
  }

  ghost predicate AskedLineFree(s: State) { forall a :: a in s.asked ==> LineFree(a) }

  /** A page would be served that no reply gave for this request. */
  ghost predicate Misserved(s: State, request: Request)
  {
    Token(request) in s.cache && Answer(request, 0, s.cache[Token(request)]) !in s.answers
  }

  /** Over every run: as long as only line-free texts were searched, each cached page is the
      first page some reply gave for a request that differs from the one it is served for in
      blank tags only, and for exactly that one if it has none. */
  lemma {:induction false} RunInv(states: seq<State>, events: seq<Event>)
    requires IsRun(states, events)
    ensures Inv(states[|events|])
    ensures
      var s := states[|events|];
      AskedLineFree(s) ==> forall a :: LineFree(a) && Misserved(s, a) ==> HasBlank(a)
  {
    var s := states[|events|];
    if events != [] {
      var n := |events| - 1;
      RunInv(states[..n + 1], events[..n]);
      StepInv(states[n], events[n], s);
    }
    if AskedLineFree(s) {
      forall a | LineFree(a) && Misserved(s, a)
        ensures HasBlank(a)
      {
        CacheHitExact(s, a);
      }
    }
  }

  /** Searching for `other` and getting an answer is enough to serve `request` its page. */
  lemma ServedForOther(request: Request, other: Request) returns (states: seq<State>, events: seq<Event>)
    requires request != other && Token(request) == Token(other)
    ensures IsRun(states, events) && Misserved(states[|events|], request)
    ensures LineFree(other) ==> AskedLineFree(states[|events|])
  {
    var s1 := Searched(START, other, 1, {});
    assert 1 in s1.inflight;
    var s2 := Replied(s1, 1, Messages([]), {});
    states, events := [START, s1, s2], [Search(other, 1, {}), Reply(1, Messages([]), {})];
    hide Token, LineFree;
    assert s2.cache == map[Token(other) := Messages([])] && s2.answers == {Answer(other, 0, Messages([]))};
    assert Step(states[0], events[0], states[1]) && Step(states[1], events[1], states[2]);
    assert LineFree(NO_REQUEST) by { EmptyLineFree(); }
  }

  lemma EmptyLineFree()
    ensures LineFree(NO_REQUEST)
  {
  }

  /** Some run with line-free texts serves a page that was never received for a request
      exactly when that request has a blank tag. */
  lemma MisservedExactlyWhen(request: Request)
    requires LineFree(request)
    ensures HasBlank(request) <==> exists states, events ::
      IsRun(states, events) && AskedLineFree(states[|events|]) && Misserved(states[|events|], request)
  {
    hide Misserved, AskedLineFree, LineFree, HasBlank, Step;
    if HasBlank(request) {
      var other := BlankTwin(request);
      var states, events := ServedForOther(request, other);
    }
    forall states, events |
      IsRun(states, events) && AskedLineFree(states[|events|]) && Misserved(states[|events|], request)
      ensures HasBlank(request)
    {
      RunInv(states, events);
    }
  }

  /** Without that restriction some run does exactly when the request names a peer or a tag, or
      a break of its query is followed by what reads as one. */
  lemma MisservedAfterBreaksExactlyWhen(request: Request)
    ensures (request.from.Some? || request.tags != [] || HasTail(request.query)) <==>
      exists states, events :: IsRun(states, events) && Misserved(states[|events|], request)
  {
    BreaksCollideExactlyWhen(request);
    hide HasTail, AskedLineFree, LineFree, HasBlank, Step, Token;
    if other :| other != request && Token(other) == Token(request) {
      var states, events := ServedForOther(request, other);
    }
    forall states, events | IsRun(states, events) && Misserved(states[|events|], request)
      ensures exists other :: other != request && Token(other) == Token(request)
    {
      RunInv(states, events);
      var s, t := states[|events|], Token(request);
      assert CachedRight(s, t);
      assert s.origin[t] != request;
    }
  }

  // ----- the code

  class Search {
    var request: Request
    var offset: MsgId
    var requestId: ReqId
    var searchInHistory: nat
    var cache: map<string, Page>
    var inflight: map<ReqId, Flight>
    var nextRequest: ReqId
    var fired: seq<Found>
    ghost var origin: map<string, Request>
    ghost var asked: set<Request>
    ghost var answers: set<Answer>

    ghost function St(): State
      reads this
    {
      State(request, offset, requestId, searchInHistory, cache, inflight, nextRequest, fired, origin, asked, answers)
    }

    constructor ()
      ensures St() == START && Inv(St())
    {
      request, offset, requestId, searchInHistory := NO_REQUEST, 0, 0, 0;
      cache, inflight, nextRequest, fired := map[], map[], 1, [];
      origin, asked, answers := map[], {NO_REQUEST}, {};
    }

    method SearchReceived(page: Page, id: ReqId, nextToken: string, loaded: set<Peer>)
      modifies this`cache, this`origin, this`requestId, this`offset, this`fired
      ensures St() == Received(old(St()), page, id, nextToken, loaded)
    {
      hide Items;
      if id != requestId {
        return;
      }
      var found := Found(-1, [], "");
      if !page.NotModified? {
        var items := HistoryItemsFromTL(page.messages, loaded);
        found := Found(if page.Messages? then |page.messages| else page.count, items, nextToken);
      }
      if offset == 0 {
        if nextToken !in cache {
          cache := cache[nextToken := page];
          origin := origin[nextToken := request];
        }
      }
      requestId := 0;
      offset := if found.messages == [] then 0 else found.messages[|found.messages| - 1].msg;
      fired := fired + [found];
    }

    method SearchRequest(h: nat, loaded: set<Peer>)
      modifies this
      ensures St() == Requested(old(St()), h, loaded)
    {
      var nextToken := RequestToToken(request);
      if offset == 0 {
        if nextToken in cache {
          requestId := 0;
          SearchReceived(cache[nextToken], requestId, nextToken, loaded);
          return;
        }
      }
      requestId := nextRequest;
      inflight := inflight[requestId := Flight(request, offset, nextToken)];
      nextRequest := nextRequest + 1;
      searchInHistory := h;
    }

    method SearchMessages(request: Request, h: nat, loaded: set<Peer>)
      requires Inv(St()) && h > 0
      modifies this
      ensures St() == Searched(old(St()), request, h, loaded) && Inv(St())
    {
      ghost var s := St();
      this.request := request;
      asked := asked + {request};
      offset := 0;
      SearchRequest(h, loaded);
      StepInv(s, Event.Search(request, h, loaded), St());
    }

    method SearchMore(h: nat, loaded: set<Peer>)
      requires Inv(St()) && h > 0
      modifies this
      ensures St() == SearchedMore(old(St()), h, loaded) && Inv(St())
    {
      ghost var s := St();
      if !(searchInHistory != 0 || requestId != 0) {
        SearchRequest(h, loaded);
      }
      StepInv(s, More(h, loaded), St());
    }

    method Done(r: ReqId, page: Page, loaded: set<Peer>)
      requires Inv(St()) && r in inflight
      modifies this
      ensures St() == Replied(old(St()), r, page, loaded) && Inv(St())
    {
      hide Inv, Received, Token;
      ghost var s := St();
      var flight := inflight[r];
      inflight := inflight - {r};
      answers := answers + {Answer(flight.request, flight.offset, page)};
      searchInHistory := 0;
      SearchReceived(page, r, flight.token, loaded);
      StepInv(s, Reply(r, page, loaded), St());
    }

    method Fail(r: ReqId, emptyQuery: bool)
      requires Inv(St()) && r in inflight
      modifies this
      ensures St() == Failed(old(St()), r, emptyQuery) && Inv(St())
    {
      hide Inv, Received, Token;
      ghost var s := St();
      var flight := inflight[r];
      inflight := inflight - {r};
      searchInHistory := 0;
      if requestId == r {
        requestId := 0;
      }
      if emptyQuery {
        fired := fired + [Found(0, [], flight.token)];
      }
      StepInv(s, Event.Fail(r, emptyQuery), St());
    }
  }
}
