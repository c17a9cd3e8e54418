/** Which users require premium to be written to: asked for in slices of a hundred, one
    slice at a time. */
module PremiumRequired {
  import opened Collections

  type User = nat

  /** The two bits of interest and the rest of a user's flags. */
  datatype Flags = Flags(meRequires: bool, known: bool, rest: nat)

  const PER_REQUEST := 100

  /** `required` and `requested` are the two sorted sets, `queued` counts calls posted to
      the main loop, `inflight` is the request being answered. */
  datatype State = State(required: seq<User>, requested: seq<User>, scheduled: bool, queued: nat,
    inflight: Option<seq<User>>, flags: map<User, Flags>)

  ghost predicate Sorted(q: seq<User>)
  {
    forall i, j :: 0 <= i < j < |q| ==> q[i] < q[j]
  }

  function FlagsOf(flags: map<User, Flags>, u: User): Flags
  {
    if u in flags then flags[u] else Flags(false, false, 0)
  }

  /** `emplace` into a sorted set. */
  function Inserted(q: seq<User>, u: User): seq<User>
  {
    if q == [] || u < q[0] then [u] + q
    else if u == q[0] then q
    else [q[0]] + Inserted(q[1..], u)
  }

  function Min(a: nat, b: nat): nat { if a < b then a else b }

  // ----- the steps

  function Scheduled(s: State): State { s.(scheduled := true, queued := s.queued + 1) }

  function Resolved(s: State, u: User): State
  {
    var s1 := s.(required := Inserted(s.required, u));
    if !s.scheduled && s.requested == [] then Scheduled(s1) else s1
  }

  /** The queued call: the first hundred required users are sent. */
  function Sliced(s: State): State
    requires s.queued > 0
  {
    var s1 := s.(scheduled := false, queued := s.queued - 1);
    if s.requested != [] || s.required == [] then s1
    else
      var n := Min(|s.required|, PER_REQUEST);
      s1.(requested := s.required[..n], required := s.required[n..], inflight := Some(s.required[..n]))
  }

  /** Answer k goes to the k-th user; a missing answer counts as "not required". */
  function Applied(flags: map<User, Flags>, users: seq<User>, list: seq<bool>): map<User, Flags>
    decreases |users|
  {
    if users == [] then flags
    else
      var require := list != [] && list[0];
      Applied(flags[users[0] := FlagsOf(flags, users[0]).(meRequires := require, known := true)],
        users[1..], if list == [] then [] else list[1..])
  }

  /** A reply; a failure is the reply with an empty list. */
  function Finished(s: State, list: seq<bool>): State
  {
    var s1 := s.(requested := [], inflight := None, flags := Applied(s.flags, s.requested, list));
    if !s.scheduled && s.required != [] then Scheduled(s1) else s1
  }

  datatype Event = Resolve(u: User) | Call | Reply(list: seq<bool>)

  ghost predicate Step(s: State, e: Event, s': State)
  {
    match e
    case Resolve(u) => s' == Resolved(s, u)
    case Call => s.queued > 0 && s' == Sliced(s)
    case Reply(list) => s.inflight.Some? && s' == Finished(s, list)
  }

  const START := State([], [], false, 0, None, map[])

  ghost predicate Inv(s: State)
  {
    && Sorted(s.required) && Sorted(s.requested)
    && |s.requested| <= PER_REQUEST
    && s.inflight == (if s.requested == [] then None else Some(s.requested))
    && s.queued == (if s.scheduled then 1 else 0)
    && (s.scheduled ==> s.requested == [])
    && (s.required != [] ==> s.scheduled || s.requested != [])
  }

  lemma {:induction false} InsertedSorted(q: seq<User>, u: User)
    requires Sorted(q)
    ensures Sorted(Inserted(q, u))
    ensures forall x :: x in Inserted(q, u) <==> x in q || x == u
  {
    if q == [] {
    } else if u < q[0] {
      SortedCons(u, q);
    } else if u > q[0] {
      var rest := Inserted(q[1..], u);
      InsertedSorted(q[1..], u);
      forall x | x in rest
        ensures q[0] < x
      {
        if x in q[1..] {
        }
      }
      SortedCons(q[0], rest);
      assert forall x :: x in q <==> x == q[0] || x in q[1..];
    }
  }

  lemma SortedCons(u: User, q: seq<User>)
    requires Sorted(q) && forall x :: x in q ==> u < x
    ensures Sorted([u] + q)
    ensures forall x :: x in [u] + q <==> x == u || x in q
  {
    forall i, j | 0 <= i < j < |[u] + q|
      ensures ([u] + q)[i] < ([u] + q)[j]
    {
      assert ([u] + q)[j] == q[j - 1] && q[j - 1] in q;
      if i > 0 {
        assert ([u] + q)[i] == q[i - 1];
      }
    }
  }

  lemma {:induction false} InsertedAt(q: seq<User>, i: nat, u: User)
    requires i <= |q| && forall j :: 0 <= j < i ==> q[j] < u
    ensures Inserted(q, u) == q[..i] + Inserted(q[i..], u)
    ensures i < |q| && q[i] == u ==> q[..i] + Inserted(q[i..], u) == q[..i] + q[i..]
    ensures i == |q| || u < q[i] ==> q[..i] + Inserted(q[i..], u) == q[..i] + [u] + q[i..]
  {
    if i > 0 {
      var rest := q[1..];
      InsertedAt(rest, i - 1, u);
      assert rest[..i - 1] == q[1..i] && rest[i - 1..] == q[i..];
      assert Inserted(q, u) == [q[0]] + Inserted(rest, u);
      hide Inserted;
      assert [q[0]] + q[1..i] == q[..i];
      assert [q[0]] + (q[1..i] + Inserted(q[i..], u)) == ([q[0]] + q[1..i]) + Inserted(q[i..], u);
    } else {
      assert q[0..] == q;
    }
    assert q[..i] + ([u] + q[i..]) == q[..i] + [u] + q[i..];
  }

  /** Every sent user becomes known with the answer at its own place; nobody else changes. */
  lemma {:induction false} AnswerPerUser(flags: map<User, Flags>, users: seq<User>, list: seq<bool>)
    requires Sorted(users)
    ensures forall k :: 0 <= k < |users| ==>
      FlagsOf(Applied(flags, users, list), users[k])
        == FlagsOf(flags, users[k]).(meRequires := k < |list| && list[k], known := true)
    ensures forall u :: u !in users ==> FlagsOf(Applied(flags, users, list), u) == FlagsOf(flags, u)
    decreases |users|
  {
    if users != [] {
      var flags1 := flags[users[0] := FlagsOf(flags, users[0]).(meRequires := list != [] && list[0], known := true)];
      var list1 := if list == [] then [] else list[1..];
      AnswerPerUser(flags1, users[1..], list1);
      assert users[0] !in users[1..];
      forall k | 0 <= k < |users|
        ensures FlagsOf(Applied(flags, users, list), users[k])
             == FlagsOf(flags, users[k]).(meRequires := k < |list| && list[k], known := true)
      {
        if k > 0 {
          assert users[k] == users[1..][k - 1];
        }
      }
    }
  }

  lemma StepInv(s: State, e: Event, s': State)
    requires Inv(s) && Step(s, e, s')
    ensures Inv(s')
  {
    match e {
      case Resolve(u) => InsertedSorted(s.required, u);
      case Call =>
      case Reply(list) =>
    }
  }

  /** The user waits, is being asked for, or is known. */
  predicate Settled(s: State, u: User) { u in s.required || u in s.requested || FlagsOf(s.flags, u).known }

  /** A step settles the user it asks about and unsettles nobody; it sends only who waits, and
      only a reply to a user, or its failure, makes one known. */
  lemma StepSettles(s: State, e: Event, s': State, u: User)
    requires Inv(s) && Step(s, e, s')
    ensures e == Resolve(u) || Settled(s, u) ==> Settled(s', u)
    ensures u in s'.required ==> u in s.required || e == Resolve(u)
    ensures u in s'.requested ==> u in s.requested || (e == Call && u in s.required)
    ensures FlagsOf(s'.flags, u) != FlagsOf(s.flags, u) ==> e.Reply? && u in s.requested
  {
    match e {
      case Resolve(v) => InsertedSorted(s.required, v);
      case Call =>
        var n := Min(|s.required|, PER_REQUEST);
        assert s.required == s.required[..n] + s.required[n..];
      case Reply(list) =>
        AnswerPerUser(s.flags, s.requested, list);
        if u in s.requested {
          var k :| 0 <= k < |s.requested| && s.requested[k] == u;
        }
    }
  }

  ghost predicate IsRun(states: seq<State>, events: seq<Event>)
  {
    && |states| == |events| + 1 && states[0] == START
    && forall i :: 0 <= i < |events| ==> Step(states[i], events[i], states[i + 1])
  }

  /** In every reachable state waiting users have a call queued or a request in flight, at
      most a hundred are in flight, and exactly the users some event asked about wait, are
      being asked for, or are known. */
  lemma {:induction false} RunInv(states: seq<State>, events: seq<Event>)
    requires IsRun(states, events)
    ensures Inv(states[|events|])
    ensures var s := states[|events|];
      && (s.required != [] ==> s.queued == 1 || s.inflight.Some?)
      && (s.inflight.Some? ==> s.inflight.value == s.requested && |s.requested| <= PER_REQUEST)
      && forall u :: Settled(s, u) <==> Resolve(u) in events
  {
    if events == [] {
      assert forall u :: !Settled(START, u);
    } else {
      var n := |events| - 1;
      var s, e, s' := states[n], events[n], states[n + 1];
      RunInv(states[..n + 1], events[..n]);
      StepInv(s, e, s');
      forall u
        ensures Settled(s', u) <==> Resolve(u) in events
      {
        StepSettles(s, e, s', u);
        assert Resolve(u) in events <==> Resolve(u) in events[..n] || e == Resolve(u) by {
          assert events == events[..n] + [e];
        }
      }
    }
  }

  /** Once nobody waits and nothing is in flight, everyone ever asked about is known. */
  lemma AllKnownAtRest(states: seq<State>, events: seq<Event>, u: User)
    requires IsRun(states, events) && Resolve(u) in events
    requires var s := states[|events|]; s.queued == 0 && s.inflight.None?
    ensures FlagsOf(states[|events|].flags, u).known
  {
    RunInv(states, events);
    assert Settled(states[|events|], u);
  }

  /** One call and its reply, with no new arrivals. */
  function Rounds(s: State, replies: seq<seq<bool>>): State
    decreases |replies|
  {
    if replies == [] || s.queued == 0 then s
    else Rounds(Finished(Sliced(s), replies[0]), replies[1..])
  }

  lemma OneRound(s: State, list: seq<bool>)
    requires Inv(s) && s.requested == [] && s.queued > 0
    ensures var u := Finished(Sliced(s), list);
      var n := Min(|s.required|, PER_REQUEST);
      && Inv(u) && u.requested == [] && u.required == s.required[n..]
      && forall k :: 0 <= k < n ==>
           var f := FlagsOf(u.flags, s.required[k]); f.known && f.meRequires == (k < |list| && list[k])
  {
    var t := Sliced(s);
    StepInv(s, Call, t);
    if s.required == [] {
      assert Applied(t.flags, [], list) == t.flags;
    } else {
      StepInv(t, Reply(list), Finished(t, list));
      AnswerPerUser(t.flags, t.requested, list);
    }
  }

  /** With no new arrivals, k replies answer exactly the first 100 k of the n waiting
      users: they are drained by ceil(n / 100) replies and by no fewer. */
  lemma {:induction false} Drains(s: State, replies: seq<seq<bool>>)
    requires Inv(s) && s.requested == []
    ensures var t := Rounds(s, replies);
      && Inv(t) && t.requested == []
      && t.required == s.required[Min(|s.required|, PER_REQUEST * |replies|)..]
      && (t.required == [] <==> |replies| >= (|s.required| + 99) / PER_REQUEST)
    decreases |replies|
  {
    hide Sliced, Finished;
    if replies == [] {
      assert s.required[0..] == s.required;
    } else if s.queued > 0 {
      OneRound(s, replies[0]);
      var u := Finished(Sliced(s), replies[0]);
      Drains(u, replies[1..]);
      assert Rounds(s, replies) == Rounds(u, replies[1..]);
    } else {
      assert s.required == [];
    }
  }

  // ----- the code

  class Premium {
    var required: seq<User>
    var requested: seq<User>
    var scheduled: bool
    var queued: nat
    var inflight: Option<seq<User>>
    var flags: map<User, Flags>

    ghost function St(): State
      reads this
    {
      State(required, requested, scheduled, queued, inflight, flags)
    }

    constructor ()
      ensures St() == START
    {
      required, requested, scheduled, queued, inflight, flags := [], [], false, 0, None, map[];
    }

    method Emplace(u: User)
      modifies this`required
      ensures required == Inserted(old(required), u)
    {
      var i := 0;
      while i < |required| && required[i] < u
        invariant 0 <= i <= |required| && required == old(required)
        invariant forall j :: 0 <= j < i ==> required[j] < u
      {
        i := i + 1;
      }
      InsertedAt(required, i, u);
      if i < |required| && required[i] == u {
        assert required[..i] + required[i..] == required;
        return;
      }
      required := required[..i] + [u] + required[i..];
    }

    method ResolvePremiumRequired(u: User)
      modifies this
      ensures St() == Resolved(old(St()), u)
    {
      Emplace(u);
      if !scheduled && requested == [] {
        scheduled := true;
        queued := queued + 1;
      }
    }

    method RequestPremiumRequiredSlice()
      requires queued > 0
      modifies this
      ensures St() == Sliced(old(St()))
    {
      queued := queued - 1;
      scheduled := false;
      if requested != [] || required == [] {
        return;
      }
      var users := required;
      if |users| > PER_REQUEST {
        users := users[..PER_REQUEST];
        requested := required[..PER_REQUEST];
        required := required[PER_REQUEST..];
      } else {
        assert required[..|required|] == required && required[|required|..] == [];
        requested := required;
        required := [];
      }
      inflight := Some(users);
    }

    method Finish(list: seq<bool>)
      requires inflight.Some?
      modifies this
      ensures St() == Finished(old(St()), list)
    {
      inflight := None;
      var users := requested;
      requested := [];
      var index, i := 0, 0;
      ghost var start := flags;
      while i < |users|
        invariant 0 <= i <= |users| && index == Min(i, |list|)
        invariant Applied(flags, users[i..], list[index..]) == Applied(start, users, list)
        invariant required == old(required) && requested == [] && scheduled == old(scheduled)
        invariant queued == old(queued) && inflight == None
      {
        var user := users[i];
        assert users[i..][0] == user && users[i..][1..] == users[i + 1..];
        assert index < |list| ==> list[index..][0] == list[index] && list[index..][1..] == list[index + 1..];
        var require := false;
        if index < |list| {
          require := list[index];
          index := index + 1;
        }
        flags := flags[user := FlagsOf(flags, user).(meRequires := require, known := true)];
        i := i + 1;
      }
      assert users[i..] == [];
      if !scheduled && required != [] {
        scheduled := true;
        queued := queued + 1;
      }
    }
  }
}
