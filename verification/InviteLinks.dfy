/** The cache of a peer's own invite links, where the one live permanent link is kept
    first and its text is written to the peer. */
module InviteLinks {
  import opened Collections

  type Peer = nat

  datatype Link = Link(text: string, permanent: bool, revoked: bool, usage: int, rest: nat)

  datatype Links = Links(list: seq<Link>, count: int)

  /** What is cached for one peer, and the text last written by `editPermanentLink`. */
  datatype Cache = Cache(slice: Option<Links>, written: Option<string>)

  predicate Live(l: Link) { l.permanent && !l.revoked }

  /** `lookupMyPermanent`: only the first link is ever looked at. */
  predicate HasPermanent(list: seq<Link>) { list != [] && Live(list[0]) }

  predicate LiveFirst(list: seq<Link>)
  {
    forall i :: 0 <= i < |list| && Live(list[i]) ==> i == 0
  }

  /** A live permanent link is first, alone, and carries the text last written. */
  predicate Right(list: seq<Link>, written: Option<string>)
  {
    LiveFirst(list) && (HasPermanent(list) ==> written == Some(list[0].text))
  }

  predicate Inv(c: Cache) { c.slice.Some? ==> Right(c.slice.value.list, c.written) }

  function CountLive(list: seq<Link>): nat
  {
    if list == [] then 0 else (if Live(list[0]) then 1 else 0) + CountLive(list[1..])
  }

  // ----- the list operations

  function FirstLive(list: seq<Link>): (i: nat)
    ensures i <= |list|
    ensures i < |list| ==> Live(list[i])
    ensures forall j :: 0 <= j < i ==> !Live(list[j])
  {
    if list == [] || Live(list[0]) then 0 else 1 + FirstLive(list[1..])
  }

  function Fronted(list: seq<Link>): seq<Link>
  {
    var i := FirstLive(list);
    if i < |list| then [list[i]] + list[..i] + list[i + 1..] else list
  }

  function NotLive(list: seq<Link>): seq<Link>
  {
    if list == [] then [] else NotLive(list[..|list| - 1]) + if Live(list[|list| - 1]) then [] else [list[|list| - 1]]
  }

  function NotNamed(list: seq<Link>, text: string): seq<Link>
  {
    if list == [] then []
    else NotNamed(list[..|list| - 1], text) + if list[|list| - 1].text == text then [] else [list[|list| - 1]]
  }

  function FirstNamed(list: seq<Link>, text: string): (i: nat)
    ensures i <= |list|
    ensures i < |list| ==> list[i].text == text
    ensures forall j :: 0 <= j < i ==> list[j].text != text
  {
    if list == [] || list[0].text == text then 0 else 1 + FirstNamed(list[1..], text)
  }

  function Dec(count: int): int { if count > 0 then count - 1 else count }

  function LinksOf(c: Cache): Links { if c.slice.Some? then c.slice.value else Links([], 0) }

  // ----- the steps

  datatype Event =
    | Created(link: Link)
    | Edited(key: string, link: Link)
    | Listed(slice: Links)
    | External(updated: Link)
    | SetPermanent(link: Link)
    | ClearPermanent
    | Dropped

  function PrependedLinks(links: Links, link: Link): Links
  {
    var had := HasPermanent(links.list);
    var base := if link.permanent && had then Links(links.list[1..], Dec(links.count)) else links;
    Links(if had && !link.permanent then [links.list[0], link] + links.list[1..] else [link] + base.list,
      base.count + 1)
  }

  function EditedLinks(links: Links, key: string, link: Link): Links
  {
    var j := FirstNamed(links.list, key);
    if j == |links.list| then links
    else if link.revoked && !links.list[j].revoked then
      Links(links.list[..j] + links.list[j + 1..], Dec(links.count))
    else links.(list := links.list[j := link])
  }

  function Max(a: int, b: int): int { if a < b then b else a }

  /** The first page: `NotNamed` is `parseSlice` skipping the permanent link already known. */
  function ListedLinks(c: Cache, slice: Links): Links
  {
    var list := LinksOf(c).list;
    if HasPermanent(list) then
      var merged := [list[0]] + NotLive(NotNamed(slice.list, list[0].text));
      Links(merged, Max(slice.count, |merged|))
    else slice.(list := Fronted(slice.list))
  }

  function Replaced(list: seq<Link>, updated: Link): seq<Link>
  {
    seq(|list|, i requires 0 <= i < |list| => if list[i].text == updated.text then updated else list[i])
  }

  function PermanentSet(links: Links, link: Link): Links
  {
    if HasPermanent(links.list) then
      if links.list[0].text == link.text then links.(list := links.list[0 := links.list[0].(usage := link.usage)])
      else Links([link] + links.list[1..], Dec(links.count))
    else links.(list := [link] + links.list)
  }

  function After(c: Cache, e: Event): Cache
  {
    var links := LinksOf(c);
    match e
    case Created(link) =>
      Cache(Some(PrependedLinks(links, link)), if link.permanent then Some(link.text) else c.written)
    case Edited(key, link) =>
      if c.slice.None? then c else c.(slice := Some(EditedLinks(links, key, link)))
    case Listed(slice) =>
      var list := ListedLinks(c, slice);
      Cache(Some(list), if !HasPermanent(links.list) && HasPermanent(list.list) then Some(list.list[0].text)
        else c.written)
    case External(updated) =>
      if c.slice.None? then c else c.(slice := Some(links.(list := Replaced(links.list, updated))))
    case SetPermanent(link) =>
      if !link.permanent then c
      else if HasPermanent(links.list) && links.list[0].text == link.text then
        c.(slice := Some(PermanentSet(links, link)))
      else Cache(Some(PermanentSet(links, link)), Some(link.text))
    case ClearPermanent =>
      if !HasPermanent(links.list) then c
      else Cache(Some(Links(links.list[1..], Dec(links.count))), Some(""))
    case Dropped => c.(slice := None)
  }

  // ----- exactly what the server has to respect

  /** A live permanent link may only be put where the live permanent link already is, and
      a first page that replaces the cache holds at most one. */
  predicate Respected(c: Cache, e: Event)
  {
    var list := LinksOf(c).list;
    match e
    case Edited(key, link) =>
      var j := FirstNamed(list, key);
      j < |list| && !(link.revoked && !list[j].revoked) && Live(link) ==> j == 0 && c.written == Some(link.text)
    case Listed(slice) => !HasPermanent(list) ==> CountLive(slice.list) <= 1
    case External(updated) =>
      Live(updated) ==> forall i :: 0 <= i < |list| && list[i].text == updated.text ==>
        i == 0 && c.written == Some(updated.text)
    case _ => true
  }

  lemma FrontedExact(list: seq<Link>)
    ensures LiveFirst(Fronted(list)) <==> CountLive(list) <= 1
  {
    hide Live, LiveFirst;
    var i := FirstLive(list);
    CountFromFirst(list);
    if i < |list| {
      FrontedLive(list[..i], list[i], list[i + 1..]);
      CountZero(list[i + 1..]);
    } else {
      CountZero(list);
      NoneLive(list);
    }
  }

  lemma NoneLive(list: seq<Link>)
    requires forall i :: 0 <= i < |list| ==> !Live(list[i])
    ensures LiveFirst(list)
  {
  }

  lemma FrontedLive(a: seq<Link>, x: Link, b: seq<Link>)
    requires forall i :: 0 <= i < |a| ==> !Live(a[i])
    ensures LiveFirst([x] + a + b) <==> forall i :: 0 <= i < |b| ==> !Live(b[i])
  {
    hide Live;
    var f := [x] + a + b;
    forall i | 0 <= i < |b|
      ensures f[i + |a| + 1] == b[i]
    {
    }
    if LiveFirst(f) {
      forall i | 0 <= i < |b|
        ensures !Live(b[i])
      {
        assert !Live(f[i + |a| + 1]);
      }
    } else {
      var k :| 0 <= k < |f| && Live(f[k]) && k != 0;
      assert k > |a| && f[k] == b[k - |a| - 1];
    }
  }

  /** Moving the permanent link to the front loses nothing and keeps the others in order. */
  lemma FrontedKeeps(list: seq<Link>)
    ensures multiset(Fronted(list)) == multiset(list)
    ensures NotLive(Fronted(list)) == NotLive(list)
  {
    var i := FirstLive(list);
    if i < |list| {
      var a, b := list[..i], list[i + 1..];
      assert list == a + [list[i]] + b;
      SwapFront(a, list[i], b);
    }
  }

  /** Where each link goes: the first live permanent one to the front, those before it back
      by one, those behind it, live or not, nowhere. */
  lemma FrontedPlaces(list: seq<Link>, j: nat)
    requires j < |list|
    ensures |Fronted(list)| == |list|
    ensures var i := FirstLive(list);
      Fronted(list)[if j < i < |list| then j + 1 else if j == i then 0 else j] == list[j]
  {
    var i := FirstLive(list);
    if i < |list| {
      var f := [list[i]] + list[..i] + list[i + 1..];
      assert j < i ==> f[j + 1] == list[..i][j];
      assert j > i ==> f[j] == list[i + 1..][j - i - 1];
    }
  }

  lemma SwapFront(a: seq<Link>, x: Link, b: seq<Link>)
    requires Live(x)
    ensures multiset([x] + a + b) == multiset(a + [x] + b)
    ensures NotLive([x] + a + b) == NotLive(a + [x] + b)
  {
    hide NotLive;
    NotLiveConcat(a + [x], b);
    NotLiveConcat(a, [x]);
    NotLiveConcat([x] + a, b);
    NotLiveConcat([x], a);
    NotLiveSingle(x);
  }

  lemma NotLiveSingle(x: Link)
    requires Live(x)
    ensures NotLive([x]) == []
  {
    assert [x][..0] == [];
  }

  lemma {:induction false} NotLiveConcat(a: seq<Link>, b: seq<Link>)
    ensures NotLive(a + b) == NotLive(a) + NotLive(b)
  {
    if b == [] {
      assert a + b == a;
    } else {
      assert (a + b)[..|a + b| - 1] == a + b[..|b| - 1];
      NotLiveConcat(a, b[..|b| - 1]);
    }
  }

  lemma {:induction false} CountFromFirst(list: seq<Link>)
    ensures var i := FirstLive(list); CountLive(list) == if i < |list| then 1 + CountLive(list[i + 1..]) else 0
  {
    if list != [] && !Live(list[0]) {
      CountFromFirst(list[1..]);
      var i := FirstLive(list);
      if i < |list| {
        assert list[1..][i..] == list[i + 1..];
      }
    }
  }

  lemma {:induction false} CountZero(list: seq<Link>)
    ensures CountLive(list) == 0 <==> forall i :: 0 <= i < |list| ==> !Live(list[i])
  {
    if list != [] {
      CountZero(list[1..]);
      assert forall i :: 0 < i < |list| ==> list[i] == list[1..][i - 1];
    }
  }

  lemma {:induction false} NotLiveExact(list: seq<Link>)
    ensures forall i :: 0 <= i < |NotLive(list)| ==> !Live(NotLive(list)[i])
  {
    if list != [] {
      NotLiveExact(list[..|list| - 1]);
    }
  }

  /** Every step keeps the cache right exactly when the server respects it. */
  lemma StepExact(c: Cache, e: Event)
    requires Inv(c)
    ensures Inv(After(c, e)) <==> Respected(c, e)
  {
    var list := LinksOf(c).list;
    match e {
      case Created(link) =>
      case Edited(key, link) => EditExact(list, c.written, key, link);
      case Listed(slice) =>
        if HasPermanent(list) {
          NotLiveExact(NotNamed(slice.list, list[0].text));
        } else {
          FrontedExact(slice.list);
        }
      case External(updated) => ReplacedExact(list, c.written, updated);
      case SetPermanent(link) =>
      case ClearPermanent =>
      case Dropped =>
    }
  }

  lemma EditExact(list: seq<Link>, written: Option<string>, key: string, link: Link)
    requires Right(list, written)
    ensures var j := FirstNamed(list, key);
      Right(EditedLinks(Links(list, 0), key, link).list, written) <==>
        (j < |list| && !(link.revoked && !list[j].revoked) && Live(link) ==> j == 0 && written == Some(link.text))
  {
    var j := FirstNamed(list, key);
    var list' := EditedLinks(Links(list, 0), key, link).list;
    if j < |list| && !(link.revoked && !list[j].revoked) {
      assert list'[j] == link;
    }
  }

  lemma ReplacedExact(list: seq<Link>, written: Option<string>, updated: Link)
    requires Right(list, written)
    ensures Right(Replaced(list, updated), written) <==>
      (Live(updated) ==> forall i :: 0 <= i < |list| && list[i].text == updated.text ==>
        i == 0 && written == Some(updated.text))
  {
    var list' := Replaced(list, updated);
    assert forall i :: 0 <= i < |list| && list[i].text == updated.text ==> list'[i] == updated;
  }

  /** `m` may be a later state of the link `l`. */
  predicate Succeeds(l: Link, m: Link) { m.permanent == l.permanent && (l.revoked ==> m.revoked) }

  /** Edits that keep a link's text and permanence, and never undo a revocation, are respected. */
  lemma FaithfulEditRespected(c: Cache, key: string, link: Link)
    requires Inv(c) && link.text == key
    requires var list := LinksOf(c).list; var j := FirstNamed(list, key); j < |list| ==> Succeeds(list[j], link)
    ensures Respected(c, Edited(key, link))
  {
  }

  /** So are updates of that kind. */
  lemma FaithfulUpdateRespected(c: Cache, updated: Link)
    requires Inv(c)
    requires forall l :: l in LinksOf(c).list && l.text == updated.text ==> Succeeds(l, updated)
    ensures Respected(c, External(updated))
  {
  }

  ghost predicate IsRun(caches: seq<Cache>, events: seq<Event>)
  {
    && |caches| == |events| + 1 && caches[0] == Cache(None, None)
    && forall i :: 0 <= i < |events| ==> caches[i + 1] == After(caches[i], events[i])
  }

  /** Over every run that respects it: first, alone, and as last written. */
  lemma {:induction false} RunInv(caches: seq<Cache>, events: seq<Event>)
    requires IsRun(caches, events)
    requires forall i :: 0 <= i < |events| ==> Respected(caches[i], events[i])
    ensures Inv(caches[|events|])
  {
    if events != [] {
      var n := |events| - 1;
      RunInv(caches[..n + 1], events[..n]);
      StepExact(caches[n], events[n]);
      assert caches[n + 1] == After(caches[n], events[n]);
    }
  }

  /** And the condition can fail: a first page with two live permanent links leaves two. */
  lemma TwoLiveBreak(a: Link, b: Link) returns (caches: seq<Cache>, events: seq<Event>)
    requires Live(a) && Live(b)
    ensures IsRun(caches, events) && !Inv(caches[|events|])
  {
    var e := Listed(Links([a, b], 2));
    events, caches := [e], [Cache(None, None), After(Cache(None, None), e)];
    assert Fronted([a, b]) == [a] + [] + [b] == [a, b];
    assert caches[1].slice == Some(Links([a, b], 2)) && Live([a, b][1]);
  }

  // ----- what the cache holds after each step

  /** A created link is cached: in front, or behind the live permanent link if there is one
      that it does not replace. The others stay in order. */
  lemma CreatedExact(c: Cache, link: Link)
    ensures var was, t := LinksOf(c), After(c, Created(link));
      var had := HasPermanent(was.list);
      var replaced, at := had && link.permanent, if had && !link.permanent then 1 else 0;
      && t.slice.Some? && at < |LinksOf(t).list| && LinksOf(t).list[at] == link
      && LinksOf(t).list[..at] + LinksOf(t).list[at + 1..] == (if replaced then was.list[1..] else was.list)
      && LinksOf(t).count == (if replaced && was.count > 0 then was.count else was.count + 1)
      && t.written == (if link.permanent then Some(link.text) else c.written)
  {
  }

  /** An edit touches the first link with that text only: a link it revokes goes, any other
      takes the new data in its place. */
  lemma EditedPlaces(c: Cache, key: string, link: Link)
    requires c.slice.Some? && FirstNamed(LinksOf(c).list, key) < |LinksOf(c).list|
    ensures var was, t := LinksOf(c).list, LinksOf(After(c, Edited(key, link))).list;
      var j := FirstNamed(was, key);
      if link.revoked && !was[j].revoked then t == was[..j] + was[j + 1..]
      else |t| == |was| && t[j] == link && forall i :: 0 <= i < |was| && i != j ==> t[i] == was[i]
  {
  }

  lemma EditedNothing(c: Cache, key: string, link: Link)
    ensures After(c, Edited(key, link)) != c ==> exists l :: l in LinksOf(c).list && l.text == key
  {
    var list, j := LinksOf(c).list, FirstNamed(LinksOf(c).list, key);
    if j < |list| {
      assert list[j] in list;
    }
  }

  /** Leaving out the links with a text, or the live permanent ones, goes link by link, in
      place and with repetitions. */
  lemma {:induction false} NotNamedFiltered(a: seq<Link>, b: seq<Link>, text: string)
    ensures NotNamed(a + b, text) == NotNamed(a, text) + NotNamed(b, text)
    ensures |a| == 1 ==> NotNamed(a, text) == if a[0].text == text then [] else a
  {
    assert |a| == 1 ==> a[..0] == [] && a == [a[0]];
    if b == [] {
      assert a + b == a;
    } else {
      assert (a + b)[..|a + b| - 1] == a + b[..|b| - 1];
      NotNamedFiltered(a, b[..|b| - 1], text);
    }
  }

  lemma NotLiveFiltered(a: seq<Link>, b: seq<Link>)
    ensures NotLive(a + b) == NotLive(a) + NotLive(b)
    ensures |a| == 1 ==> NotLive(a) == if Live(a[0]) then [] else a
  {
    NotLiveConcat(a, b);
    assert |a| == 1 ==> a[..0] == [] && a == [a[0]];
  }

  /** A first page keeps the live permanent link known before in front, drops other copies of
      it and other live permanent links, and is the cache otherwise. */
  lemma ListedExact(c: Cache, slice: Links)
    ensures var was, t := LinksOf(c).list, LinksOf(After(c, Listed(slice))).list;
      if HasPermanent(was) then t == [was[0]] + NotLive(NotNamed(slice.list, was[0].text))
      else multiset(t) == multiset(slice.list) && NotLive(t) == NotLive(slice.list)
    ensures !HasPermanent(LinksOf(c).list) && (exists l :: l in slice.list && Live(l)) ==>
      HasPermanent(LinksOf(After(c, Listed(slice))).list)
  {
    if !HasPermanent(LinksOf(c).list) {
      FrontedKeeps(slice.list);
    }
  }

  /** The permanent link just set is in front, with the usage just heard. */
  lemma SetExact(c: Cache, link: Link)
    requires link.permanent
    ensures var was, t := LinksOf(c).list, LinksOf(After(c, SetPermanent(link))).list;
      && t != [] && t[0].text == link.text && t[0].usage == link.usage
      && t[1..] == (if HasPermanent(was) then was[1..] else was)
      && (t[0] == link || (HasPermanent(was) && t[0] == was[0].(usage := link.usage)))
  {
  }

  // ----- runs of a faithful server

  /** The links an event carries. */
  function Carried(e: Event): seq<Link>
  {
    match e
    case Created(link) => [link]
    case Edited(_, link) => [link]
    case Listed(slice) => slice.list
    case External(updated) => [updated]
    case SetPermanent(link) => [link]
    case _ => []
  }

  /** The server edits the link it was asked to, lists at most one live permanent link, and
      never changes a link's permanence or undoes its revocation. */
  ghost predicate FaithfulServer(events: seq<Event>)
  {
    && (forall i :: 0 <= i < |events| && events[i].Edited? ==> events[i].link.text == events[i].key)
    && (forall i :: 0 <= i < |events| && events[i].Listed? ==> CountLive(events[i].slice.list) <= 1)
    && (forall i, j, l, m ::
          (0 <= i < j < |events| && l in Carried(events[i]) && m in Carried(events[j]) && l.text == m.text) ==>
            Succeeds(l, m))
  }

  predicate SameLink(l: Link, m: Link) { l.text == m.text && l.permanent == m.permanent && l.revoked == m.revoked }

  /** A cached link is one that some event carried. */
  ghost predicate Heard(events: seq<Event>, l: Link)
  {
    exists i, m :: 0 <= i < |events| && m in Carried(events[i]) && SameLink(m, l)
  }

  /** A step adds only links its event carries. */
  lemma StepHears(c: Cache, e: Event, l: Link)
    requires l in LinksOf(After(c, e)).list
    ensures (exists m :: m in LinksOf(c).list && SameLink(m, l)) || (exists m :: m in Carried(e) && SameLink(m, l))
  {
    assert SameLink(l, l);
    var list := LinksOf(c).list;
    if e.Listed? {
      FrontedKeeps(e.slice.list);
      assert l in multiset(Fronted(e.slice.list)) <==> l in Fronted(e.slice.list);
      if HasPermanent(list) {
        NotLiveWithin(NotNamed(e.slice.list, list[0].text), l);
        NotNamedWithin(e.slice.list, list[0].text, l);
      }
    } else if e.SetPermanent? && HasPermanent(list) && list[0].text == e.link.text {
      assert forall m :: m in PermanentSet(LinksOf(c), e.link).list ==> m in list || SameLink(list[0], m);
    }
  }

  lemma {:induction false} NotLiveWithin(list: seq<Link>, l: Link)
    ensures l in NotLive(list) ==> l in list
  {
    if list != [] {
      NotLiveWithin(list[..|list| - 1], l);
    }
  }

  lemma {:induction false} NotNamedWithin(list: seq<Link>, text: string, l: Link)
    ensures l in NotNamed(list, text) ==> l in list
  {
    if list != [] {
      NotNamedWithin(list[..|list| - 1], text, l);
    }
  }

  lemma {:induction false} AllHeard(caches: seq<Cache>, events: seq<Event>, l: Link)
    requires IsRun(caches, events) && l in LinksOf(caches[|events|]).list
    ensures Heard(events, l)
  {
    if events != [] {
      var n := |events| - 1;
      var c, e := caches[n], events[n];
      assert caches[n + 1] == After(c, e);
      StepHears(c, e, l);
      if m :| m in Carried(e) && SameLink(m, l) {
        assert Heard(events, l);
      } else {
        var m :| m in LinksOf(c).list && SameLink(m, l);
        AllHeard(caches[..n + 1], events[..n], m);
        var i, k :| 0 <= i < n && k in Carried(events[..n][i]) && SameLink(k, m);
        assert k in Carried(events[i]) && SameLink(k, l);
      }
    }
  }

  /** Over every run of a faithful server the live permanent link is first, alone, and the one
      last written. */
  lemma {:induction false} FaithfulRunInv(caches: seq<Cache>, events: seq<Event>)
    requires IsRun(caches, events) && FaithfulServer(events)
    ensures Inv(caches[|events|])
  {
    if events != [] {
      var n := |events| - 1;
      var c, e := caches[n], events[n];
      FaithfulRunInv(caches[..n + 1], events[..n]);
      forall l, m | l in LinksOf(c).list && m in Carried(e) && l.text == m.text
        ensures Succeeds(l, m)
      {
        AllHeard(caches[..n + 1], events[..n], l);
        var i, k :| 0 <= i < n && k in Carried(events[..n][i]) && SameLink(k, l);
        assert Succeeds(k, m);
      }
      FaithfulStep(c, e);
      StepExact(c, e);
      assert caches[n + 1] == After(c, e);
    }
  }

  lemma FaithfulStep(c: Cache, e: Event)
    requires Inv(c)
    requires e.Edited? ==> e.link.text == e.key
    requires e.Listed? ==> CountLive(e.slice.list) <= 1
    requires forall l, m :: l in LinksOf(c).list && m in Carried(e) && l.text == m.text ==> Succeeds(l, m)
    ensures Respected(c, e)
  {
    match e
    case Edited(key, link) =>
      assert link in Carried(e);
      FaithfulEditRespected(c, key, link);
    case External(updated) =>
      assert updated in Carried(e);
      FaithfulUpdateRespected(c, updated);
    case _ =>
  }

  // ----- the code

  class InviteLinksCache {
    var slices: map<Peer, Links>
    var written: map<Peer, string>

    constructor ()
      ensures forall p :: CacheOf(p) == Cache(None, None)
    {
      slices, written := map[], map[];
    }

    ghost function CacheOf(p: Peer): Cache
      reads this
    {
      Cache(if p in slices then Some(slices[p]) else None, if p in written then Some(written[p]) else None)
    }

    twostate predicate Only(p: Peer)
      reads this
    {
      forall q :: q != p ==> CacheOf(q) == old(CacheOf(q))
    }

    /** Where the discipline holds, looking at the first link finds the live permanent link of
        the list, if it has one. */
    method LookupMyPermanent(list: seq<Link>) returns (r: Option<Link>)
      ensures r == if HasPermanent(list) then Some(list[0]) else None
      ensures LiveFirst(list) ==> forall l :: r == Some(l) <==> l in list && Live(l)
    {
      r := if list != [] && list[0].permanent && !list[0].revoked then Some(list[0]) else None;
    }

    method PrependMyToFirstSlice(p: Peer, link: Link)
      modifies this
      ensures CacheOf(p) == After(old(CacheOf(p)), Created(link)) && Only(p)
    {
      var links := if p in slices then slices[p] else Links([], 0);
      var permanent := LookupMyPermanent(links.list);
      if link.permanent && permanent.Some? {
        links := links.(list := links.list[1..]);
        if links.count > 0 {
          links := links.(count := links.count - 1);
        }
      }
      links := links.(count := links.count + 1);
      if permanent.Some? && !link.permanent {
        assert links.list[..1] + [link] == [links.list[0], link];
        links := links.(list := links.list[..1] + [link] + links.list[1..]);
      } else {
        links := links.(list := [link] + links.list);
      }
      slices := slices[p := links];
      if link.permanent {
        written := written[p := link.text];
      }
    }

    method FindNamed(list: seq<Link>, key: string) returns (j: nat)
      ensures j == FirstNamed(list, key)
    {
      j := 0;
      while j < |list| && list[j].text != key
        invariant 0 <= j <= |list| && FirstNamed(list, key) == j + FirstNamed(list[j..], key)
      {
        assert list[j..][1..] == list[j + 1..];
        j := j + 1;
      }
    }

    /** The reply to an edit of `key`; `replacement` is the new link of a replaced one. */
    method GotEdit(p: Peer, key: string, link: Option<Link>, replacement: Option<Link>, adminIsSelf: bool)
      modifies this
      ensures var c := old(CacheOf(p));
        CacheOf(p) == if link.None? then c else
          var c1 := After(c, Edited(key, link.value));
          if replacement.Some? && adminIsSelf then After(c1, Created(replacement.value)) else c1
      ensures Only(p)
    {
      if link.None? {
        return;
      }
      if p in slices {
        var list := slices[p].list;
        var j := FindNamed(list, key);
        if j < |list| {
          if link.value.revoked && !list[j].revoked {
            slices := slices[p := Links(list[..j] + list[j + 1..], if slices[p].count > 0 then slices[p].count - 1
              else slices[p].count)];
          } else {
            slices := slices[p := slices[p].(list := list[j := link.value])];
          }
        }
      }
      if replacement.Some? && adminIsSelf {
        PrependMyToFirstSlice(p, replacement.value);
      }
    }

    /** `find_if` and `rotate`. */
    method BringPermanentToFront(list: seq<Link>) returns (r: seq<Link>)
      ensures r == Fronted(list)
    {
      var i := 0;
      while i < |list| && !(list[i].permanent && !list[i].revoked)
        invariant 0 <= i <= |list| && FirstLive(list) == i + FirstLive(list[i..])
      {
        assert list[i..][1..] == list[i + 1..];
        i := i + 1;
      }
      r := list;
      if i < |list| && i != 0 {
        r := [list[i]] + list[..i] + list[i + 1..];
      } else if i == 0 && list != [] {
        assert [list[0]] + list[..0] + list[1..] == list;
      }
    }

    method RemovePermanent(list: seq<Link>) returns (r: seq<Link>)
      ensures r == NotLive(list)
    {
      r := [];
      var i := 0;
      while i < |list|
        invariant 0 <= i <= |list| && r == NotLive(list[..i])
      {
        assert list[..i + 1][..i] == list[..i];
        if !(list[i].permanent && !list[i].revoked) {
          r := r + [list[i]];
        }
        i := i + 1;
      }
      assert list[..i] == list;
    }

    method ParseSlice(list: seq<Link>, permanent: Option<Link>) returns (r: seq<Link>)
      ensures r == if permanent.None? then list else NotNamed(list, permanent.value.text)
    {
      r := [];
      var i := 0;
      while i < |list|
        invariant 0 <= i <= |list|
        invariant r == if permanent.None? then list[..i] else NotNamed(list[..i], permanent.value.text)
      {
        assert list[..i + 1][..i] == list[..i];
        if permanent.None? || list[i].text != permanent.value.text {
          r := r + [list[i]];
        }
        i := i + 1;
      }
      assert list[..i] == list;
    }

    /** The reply with the first page of links. */
    method GotMyLinks(p: Peer, slice: Links)
      modifies this
      ensures CacheOf(p) == After(old(CacheOf(p)), Listed(slice)) && Only(p)
    {
      var known := if p in slices then slices[p].list else [];
      var permanent := LookupMyPermanent(known);
      var parsed := ParseSlice(slice.list, permanent);
      if permanent.None? {
        parsed := BringPermanentToFront(parsed);
        slices := slices[p := Links(parsed, slice.count)];
        var front := LookupMyPermanent(parsed);
        if front.Some? {
          written := written[p := front.value.text];
        }
      } else {
        parsed := RemovePermanent(parsed);
        var existing := known[..1] + parsed;
        assert known[..1] == [known[0]];
        slices := slices[p := Links(existing, if slice.count < |existing| then |existing| else slice.count)];
      }
    }

    method ApplyExternalUpdate(p: Peer, updated: Link)
      modifies this
      ensures CacheOf(p) == After(old(CacheOf(p)), External(updated)) && Only(p)
    {
      if p in slices {
        var list := slices[p].list;
        ghost var start := list;
        var i := 0;
        while i < |list|
          invariant 0 <= i <= |list| == |start|
          invariant forall j :: 0 <= j < |list| ==> list[j] == if j < i then Replaced(start, updated)[j] else start[j]
        {
          if list[i].text == updated.text {
            list := list[i := updated];
          }
          i := i + 1;
        }
        assert list == Replaced(start, updated);
        slices := slices[p := slices[p].(list := list)];
      }
    }

    method SetMyPermanent(p: Peer, link: Option<Link>)
      modifies this
      ensures CacheOf(p) == (if link.None? then old(CacheOf(p))
        else After(old(CacheOf(p)), SetPermanent(link.value))) && Only(p)
    {
      if link.None? || !link.value.permanent {
        return;
      }
      var links := if p in slices then slices[p] else Links([], 0);
      var permanent := LookupMyPermanent(links.list);
      if permanent.Some? {
        assert links.list[0 := links.list[0]] == links.list;
        if permanent.value.text == link.value.text {
          if permanent.value.usage != link.value.usage {
            slices := slices[p := links.(list := links.list[0 := permanent.value.(usage := link.value.usage)])];
          }
          return;
        }
        links := Links(links.list[1..], if links.count > 0 then links.count - 1 else links.count);
      }
      slices := slices[p := links.(list := [link.value] + links.list)];
      written := written[p := link.value.text];
    }

    method ClearMyPermanent(p: Peer)
      modifies this
      ensures CacheOf(p) == After(old(CacheOf(p)), ClearPermanent) && Only(p)
    {
      if p !in slices {
        return;
      }
      var links := slices[p];
      var permanent := LookupMyPermanent(links.list);
      if permanent.None? {
        return;
      }
      slices := slices[p := Links(links.list[1..], if links.count > 0 then links.count - 1 else links.count)];
      written := written[p := ""];
    }
  }
}
