/** "Typing…" notifications (api_send_progress.cpp). Updates are throttled per
    chat, topic and action, and at most one request per key is outstanding. */
module SendProgress {
  import opened Collections

  datatype ProgressType =
    | Typing | RecordVideo | UploadVideo | RecordVoice | UploadVoice | RecordRound | UploadRound
    | UploadPhoto | UploadFile | ChooseLocation | ChooseContact | ChooseSticker | PlayGame | Speaking

  datatype Key = Key(history: int, topMsgId: int, kind: ProgressType)

  type RequestId = nat

  /** `kSendMySpeakingInterval` and `kSendMyTypingInterval`, in milliseconds. */
  const SPEAKING_INTERVAL := 3000
  const TYPING_INTERVAL := 5000

  function SendEach(key: Key): (r: int)
    ensures r > 0
  {
    if key.kind == Speaking then SPEAKING_INTERVAL else TYPING_INTERVAL
  }

  // ----- the throttle

  /** A call of `updated`: an action goes on, or stops, at a moment. */
  datatype Call = Call(key: Key, doing: bool, now: int)

  function Accepts(updated: map<Key, int>, c: Call): bool
  {
    if c.doing then c.key !in updated || updated[c.key] <= c.now + SendEach(c.key)
    else c.key in updated && updated[c.key] > c.now
  }

  function Throttled(updated: map<Key, int>, c: Call): map<Key, int>
  {
    if !Accepts(updated, c) then updated
    else if c.doing then updated[c.key := c.now + 2 * SendEach(c.key)]
    else updated - {c.key}
  }

  function After(calls: seq<Call>): map<Key, int>
  {
    if calls == [] then map[] else Throttled(After(calls[..|calls| - 1]), calls[|calls| - 1])
  }

  /** The i-th call of the run is let through. */
  predicate Accepted(calls: seq<Call>, i: nat)
    requires i < |calls|
  {
    Accepts(After(calls[..i]), calls[i])
  }

  /** No stop of the key gets through strictly between calls i and j. */
  ghost predicate Uninterrupted(calls: seq<Call>, i: int, j: nat)
    requires 0 <= i < j <= |calls|
  {
    forall k :: i < k < j && calls[k].key == calls[i].key && !calls[k].doing ==> !Accepted(calls, k)
  }

  /** Call i is the last update of its key let through before j. */
  ghost predicate LastBefore(calls: seq<Call>, i: int, j: nat)
    requires 0 <= i < j <= |calls|
  {
    && calls[i].doing && Accepted(calls, i)
    && forall k :: i < k < j && calls[k].key == calls[i].key ==> !Accepted(calls, k)
  }

  lemma AfterNext(calls: seq<Call>, j: nat)
    requires j < |calls|
    ensures After(calls[..j + 1]) == Throttled(After(calls[..j]), calls[j])
  {
    assert calls[..j + 1][..j] == calls[..j];
  }

  /** The table remembers the last accepted update, two intervals ahead. */
  lemma {:induction false} Remembered(calls: seq<Call>, i: nat, j: nat)
    requires i < j <= |calls| && LastBefore(calls, i, j)
    ensures calls[i].key in After(calls[..j])
    ensures After(calls[..j])[calls[i].key] == calls[i].now + 2 * SendEach(calls[i].key)
    decreases j
  {
    AfterNext(calls, j - 1);
    if i < j - 1 {
      Remembered(calls, i, j - 1);
    }
  }

  /** The throttle, exactly: after the last accepted update of a key, the next
      update passes if and only if one interval has gone by, and a stop passes
      if and only if two intervals have not. */
  lemma ThrottleExact(calls: seq<Call>, i: nat, j: nat)
    requires i < j < |calls| && LastBefore(calls, i, j) && calls[j].key == calls[i].key
    ensures
      var each := SendEach(calls[i].key);
      && (calls[j].doing ==> (Accepted(calls, j) <==> calls[j].now >= calls[i].now + each))
      && (!calls[j].doing ==> (Accepted(calls, j) <==> calls[j].now < calls[i].now + 2 * each))
  {
    Remembered(calls, i, j);
  }

  /** Every key starts open: with no accepted update so far, the first one passes and a stop does not. */
  lemma FirstAccepted(calls: seq<Call>, j: nat)
    requires j < |calls|
    requires forall k :: 0 <= k < j && calls[k].key == calls[j].key ==> !(calls[k].doing && Accepted(calls, k))
    ensures Accepted(calls, j) <==> calls[j].doing
  {
    NeverListed(calls, calls[j].key, j);
  }

  lemma {:induction false} NeverListed(calls: seq<Call>, key: Key, j: nat)
    requires j <= |calls|
    requires forall k :: 0 <= k < j && calls[k].key == key ==> !(calls[k].doing && Accepted(calls, k))
    ensures key !in After(calls[..j])
    decreases j
  {
    if j > 0 {
      NeverListed(calls, key, j - 1);
      AfterNext(calls, j - 1);
    }
  }

  /** Walks back from j to the last accepted update of the key at or after i. */
  lemma {:induction false} FindLast(calls: seq<Call>, i: nat, j: nat) returns (last: nat)
    requires i < j <= |calls| && calls[i].doing && Accepted(calls, i) && Uninterrupted(calls, i, j)
    ensures i <= last < j && calls[last].key == calls[i].key && LastBefore(calls, last, j)
    decreases j
  {
    last := j - 1;
    if calls[j - 1].key != calls[i].key || !Accepted(calls, j - 1) {
      last := FindLast(calls, i, j - 1);
    }
  }

  /** Accepted updates of a key are an interval apart unless a stop passed between them. */
  lemma {:induction false} SpacedApart(calls: seq<Call>, i: nat, j: nat)
    requires i < j < |calls| && calls[i].key == calls[j].key && calls[i].doing && calls[j].doing
    requires Accepted(calls, i) && Accepted(calls, j) && Uninterrupted(calls, i, j)
    ensures calls[j].now >= calls[i].now + SendEach(calls[i].key)
    decreases j
  {
    var last := FindLast(calls, i, j);
    ThrottleExact(calls, last, j);
    if i < last {
      SpacedApart(calls, i, last);
    }
  }

  /** Positions of accepted updates of one key, in order, with no stop getting through from the first on. */
  ghost predicate Chain(calls: seq<Call>, key: Key, at: seq<nat>)
  {
    && (forall n :: 0 <= n < |at| ==>
      at[n] < |calls| && calls[at[n]].key == key && calls[at[n]].doing && Accepted(calls, at[n]))
    && (forall n, m :: 0 <= n < m < |at| ==> at[n] < at[m])
    && (at != [] ==> Uninterrupted(calls, at[0], |calls|))
  }

  /** A chain of n updates takes n - 1 intervals, so a window of length T holds at most T / interval + 1. */
  lemma {:induction false} WindowCount(calls: seq<Call>, key: Key, at: seq<nat>, start: int, length: nat)
    requires Chain(calls, key, at)
    requires forall n :: 0 <= n < |at| ==> start <= calls[at[n]].now <= start + length
    ensures |at| <= length / SendEach(key) + 1
  {
    if |at| > 0 {
      ChainTakes(calls, key, at, |at| - 1);
      Quotient(|at| - 1, length, SendEach(key));
    }
  }

  lemma {:induction false} ChainTakes(calls: seq<Call>, key: Key, at: seq<nat>, n: nat)
    requires Chain(calls, key, at) && n < |at|
    ensures calls[at[n]].now >= calls[at[0]].now + n * SendEach(key)
  {
    if n > 0 {
      ChainTakes(calls, key, at, n - 1);
      SpacedApart(calls, at[n - 1], at[n]);
    }
  }

  lemma Quotient(n: nat, length: nat, each: int)
    requires each > 0 && n * each <= length
    ensures n <= length / each
  {
    var q := length / each;
    assert length < (q + 1) * each;
    LessFactor(n, q + 1, each);
  }

  lemma LessFactor(a: int, b: int, c: int)
    requires c > 0 && a * c < b * c
    ensures a < b
  {
  }

  /** In numbers: at most 13 typing and 21 speaking notifications a minute. */
  lemma MinuteCount(calls: seq<Call>, key: Key, at: seq<nat>, start: int)
    requires Chain(calls, key, at)
    requires forall n :: 0 <= n < |at| ==> start <= calls[at[n]].now <= start + 60_000
    ensures |at| <= if key.kind == Speaking then 21 else 13
  {
    WindowCount(calls, key, at, start, 60_000);
  }

  // ----- the requests

  /** `requests` is the manager's table. `inflight` holds the typing requests
      the network still has, by request id, with the key each was sent for;
      ids are issued from `nextId` up. */
  datatype State = State(updated: map<Key, int>, requests: map<Key, RequestId>, inflight: map<RequestId, Key>,
    nextId: RequestId)

  const START := State(map[], map[], map[], 1)

  /** What the outside says of a chat when a notification is due. */
  datatype Outside = Outside(closed: bool, skipped: bool)

  function Cancelled(s: State, key: Key): State
  {
    if key in s.requests then
      s.(inflight := s.inflight - {s.requests[key]}, requests := s.requests - {key})
    else s
  }

  function Sent(s: State, key: Key): State
  {
    s.(requests := if key in s.requests then s.requests else s.requests[key := s.nextId],
       inflight := s.inflight[s.nextId := key],
       nextId := s.nextId + 1)
  }

  function Updated(s: State, c: Call, o: Outside): State
  {
    if o.closed || !Accepts(s.updated, c) then s
    else
      var t := Cancelled(s.(updated := Throttled(s.updated, c)), c.key);
      if c.doing && !o.skipped then Sent(t, c.key) else t
  }

  /** `done`: the one entry with that request id goes. */
  function Removed(requests: map<Key, RequestId>, r: RequestId): map<Key, RequestId>
  {
    map k | k in requests && requests[k] != r :: requests[k]
  }

  function Replied(s: State, r: RequestId, success: bool): State
  {
    s.(inflight := s.inflight - {r}, requests := if success then Removed(s.requests, r) else s.requests)
  }

  datatype Event =
    | Update(call: Call, outside: Outside)
    | Cancel(key: Key)
    | Reply(request: RequestId, success: bool)

  ghost predicate Step(s: State, e: Event, t: State)
  {
    match e
    case Update(c, o) => t == Updated(s, c, o)
    case Cancel(key) => t == Cancelled(s, key)
    case Reply(r, success) => r in s.inflight && t == Replied(s, r, success)
  }

  /** No two keys share a request id, and whatever is in flight can still be found, so cancelled, by its key. */
  ghost predicate Inv(s: State)
  {
    && (forall k :: k in s.requests ==> s.requests[k] < s.nextId)
    && (forall k, l :: k in s.requests && l in s.requests && s.requests[k] == s.requests[l] ==> k == l)
    && (forall r :: r in s.inflight ==> s.inflight[r] in s.requests && s.requests[s.inflight[r]] == r)
  }

  lemma CancelledInv(s: State, key: Key)
    requires Inv(s)
    ensures Inv(Cancelled(s, key)) && key !in Cancelled(s, key).requests
    ensures forall r :: r in Cancelled(s, key).inflight ==> Cancelled(s, key).inflight[r] != key
  {
  }

  lemma SentInv(s: State, key: Key)
    requires Inv(s) && key !in s.requests
    ensures Inv(Sent(s, key))
  {
  }

  lemma StepInv(s: State, e: Event, t: State)
    requires Inv(s) && Step(s, e, t)
    ensures Inv(t)
  {
    match e
    case Update(c, o) =>
      var u := s.(updated := Throttled(s.updated, c));
      CancelledInv(u, c.key);
      if c.doing { SentInv(Cancelled(u, c.key), c.key); }
    case Cancel(key) => CancelledInv(s, key);
    case Reply(r, success) =>
  }

  ghost predicate Run(states: seq<State>, events: seq<Event>)
  {
    && |states| == |events| + 1 && states[0] == START
    && forall i :: 0 <= i < |events| ==> Step(states[i], events[i], states[i + 1])
  }

  lemma {:induction false} RunInv(states: seq<State>, events: seq<Event>, i: nat)
    requires Run(states, events) && i < |states|
    ensures Inv(states[i])
  {
    if i > 0 {
      RunInv(states, events, i - 1);
      StepInv(states[i - 1], events[i - 1], states[i]);
    }
  }

  /** The calls that reach the throttle in a run: those for chats where notifications make sense. */
  ghost function Reaching(events: seq<Event>): seq<Call>
  {
    if events == [] then []
    else
      var e, before := events[|events| - 1], Reaching(events[..|events| - 1]);
      if e.Update? && !e.outside.closed then before + [e.call] else before
  }

  /** Cancels and replies never touch the throttle: in every run it is what the updates alone make it. */
  lemma {:induction false} RunThrottle(states: seq<State>, events: seq<Event>, i: nat)
    requires Run(states, events) && i <= |events|
    ensures states[i].updated == After(Reaching(events[..i]))
  {
    if i > 0 {
      RunThrottle(states, events, i - 1);
      var e, before := events[i - 1], Reaching(events[..i - 1]);
      assert Step(states[i - 1], e, states[i]);
      assert events[..i][..i - 1] == events[..i - 1];
      if e.Update? && !e.outside.closed {
        assert (before + [e.call])[..|before|] == before;
      }
    }
  }

  /** An accepted action that is not skipped puts its request in flight, recorded under its key;
      an accepted stop, or a skipped action, leaves none of the key; a refused call, or one for
      a closed chat, changes nothing. Requests of other keys stay. */
  lemma UpdatedExact(s: State, c: Call, o: Outside)
    requires Inv(s)
    ensures var t := Updated(s, c, o); var let := !o.closed && Accepts(s.updated, c);
      && (!let ==> t == s)
      && (let && c.doing && !o.skipped ==>
            && s.nextId in t.inflight && t.inflight[s.nextId] == c.key
            && c.key in t.requests && t.requests[c.key] == s.nextId)
      && (let && (!c.doing || o.skipped) ==>
            c.key !in t.requests && forall r :: r in t.inflight ==> t.inflight[r] != c.key)
      && (forall k :: k != c.key ==>
            (k in t.requests <==> k in s.requests) && (k in s.requests ==> t.requests[k] == s.requests[k]))
      && (forall r :: r in s.inflight && s.inflight[r] != c.key ==> r in t.inflight && t.inflight[r] == s.inflight[r])
  {
    if !o.closed && Accepts(s.updated, c) {
      var u := s.(updated := Throttled(s.updated, c));
      CancelledExact(u, c.key);
      hide Inv, Cancelled, Throttled;
      if c.doing && !o.skipped {
        SentExact(Cancelled(u, c.key), c.key);
      }
    }
  }

  lemma CancelledExact(s: State, key: Key)
    requires Inv(s)
    ensures var t := Cancelled(s, key);
      && t.nextId == s.nextId && key !in t.requests && s.nextId !in t.inflight
      && (forall r :: r in t.inflight <==> r in s.inflight && s.inflight[r] != key)
      && (forall r :: r in t.inflight ==> t.inflight[r] == s.inflight[r])
      && (forall k :: k != key ==>
            (k in t.requests <==> k in s.requests) && (k in s.requests ==> t.requests[k] == s.requests[k]))
  {
  }

  lemma SentExact(s: State, key: Key)
    requires key !in s.requests
    ensures var t := Sent(s, key);
      && t.requests == s.requests[key := s.nextId] && t.inflight == s.inflight[s.nextId := key]
  {
  }

  /** Over every run: one request per key is in flight at most, and one key never holds another's. */
  lemma OnePerKey(states: seq<State>, events: seq<Event>, i: nat, r: RequestId, q: RequestId)
    requires Run(states, events) && i < |states|
    requires r in states[i].inflight && q in states[i].inflight
    ensures states[i].inflight[r] == states[i].inflight[q] ==> r == q
  {
    RunInv(states, events, i);
  }

  // ----- the code

  class SendProgressManager {
    var updated: map<Key, int>
    var requests: map<Key, RequestId>
    var inflight: map<RequestId, Key>
    var nextId: RequestId

    ghost function Now(): State
      reads this
    {
      State(updated, requests, inflight, nextId)
    }

    constructor ()
      ensures Now() == START
    {
      updated, requests, inflight, nextId := map[], map[], map[], 1;
    }

    method Cancel(key: Key)
      modifies this`requests, this`inflight
      ensures Now() == Cancelled(old(Now()), key)
    {
      if key in requests {
        inflight := inflight - {requests[key]};
        requests := requests - {key};
      }
    }

    /** `isSelf`, `isChannel` and `isMegagroup` describe the peer; `skip` is the outcome of the checks inside `send`. */
    method Update(key: Key, progress: int, now: int, isSelf: bool, isChannel: bool, isMegagroup: bool, skip: bool)
      modifies this
      ensures
        var closed := isSelf || (isChannel && !isMegagroup && key.kind != Speaking);
        Now() == Updated(old(Now()), Call(key, progress >= 0, now), Outside(closed, skip))
    {
      if isSelf || (isChannel && !isMegagroup && key.kind != Speaking) {
        return;
      }
      var doing := progress >= 0;
      var ok := CheckUpdated(key, doing, now);
      if ok {
        Cancel(key);
        if doing {
          Send(key, skip);
        }
      }
    }

    method CheckUpdated(key: Key, doing: bool, now: int) returns (ok: bool)
      modifies this`updated
      ensures ok == Accepts(old(updated), Call(key, doing, now))
      ensures updated == Throttled(old(updated), Call(key, doing, now))
    {
      if doing {
        var sendEach := if key.kind == Speaking then SPEAKING_INTERVAL else TYPING_INTERVAL;
        if key !in updated {
          updated := updated[key := now + 2 * sendEach];
        } else if updated[key] > now + sendEach {
          return false;
        } else {
          updated := updated[key := now + 2 * sendEach];
        }
      } else {
        if key !in updated {
          return false;
        } else if updated[key] <= now {
          return false;
        }
        updated := updated - {key};
      }
      return true;
    }

    method Send(key: Key, skip: bool)
      modifies this`requests, this`inflight, this`nextId
      ensures Now() == if skip then old(Now()) else Sent(old(Now()), key)
    {
      if skip {
        return;
      }
      var requestId := nextId;
      inflight, nextId := inflight[requestId := key], nextId + 1;
      if key !in requests {
        requests := requests[key := requestId];
      }
    }

    /** A successful reply. The loop stops at the first entry that matches: by the invariant there is no other. */
    method Done(requestId: RequestId)
      requires Inv(Now())
      modifies this`requests, this`inflight
      ensures Now() == Replied(old(Now()), requestId, true)
    {
      inflight := inflight - {requestId};
      var left := requests.Keys;
      while left != {}
        invariant inflight == old(inflight) - {requestId}
        invariant requests == old(requests) && left <= requests.Keys
        invariant forall k :: k in requests && requests[k] == requestId ==> k in left
        decreases left
      {
        var k := Pick(left);
        if requests[k] == requestId {
          requests := requests - {k};
          assert requests == Removed(old(requests), requestId);
          return;
        }
        left := left - {k};
      }
      assert requests == Removed(requests, requestId);
    }
  }
}
