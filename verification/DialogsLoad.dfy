/** Paging through the dialogs lists: per folder one list request and one pinned request,
    until both have been received and "list done" is posted. */
module DialogsLoad {
  import opened Collections

  type ReqId = nat
  type Peer = nat
  type MsgId = int

  /** The main list (a null folder pointer) or a folder. */
  datatype Folder = Main | Archive(id: nat)

  datatype Offset = Offset(date: int, id: MsgId, peer: Peer)

  datatype Load = Load(offset: Offset, requestId: ReqId, listReceived: bool, pinnedRequestId: ReqId,
    pinnedReceived: bool)

  /** A list request asks for the dialogs behind an offset. */
  datatype Flight = List(folder: Folder, offset: Offset) | Pinned(folder: Folder)

  /** `loads` joins the pointer of the main list and the map of the folders. The last two
      fields are history: the loads ever started and the notifications posted. */
  datatype State = State(loads: map<Folder, Load>, inflight: map<ReqId, Flight>, nextRequest: ReqId,
    started: multiset<Folder>, posted: multiset<Folder>)

  const NO_OFFSET := Offset(0, 0, 0)
  const NEW_LOAD := Load(NO_OFFSET, 0, false, 0, false)

  ghost predicate LoadInv(s: State, f: Folder)
    requires f in s.loads
  {
    var l := s.loads[f];
    && l.requestId < s.nextRequest
    && (l.listReceived ==> l.requestId != 0 && !l.pinnedReceived)
    && (l.pinnedRequestId != 0 ==>
          !l.pinnedReceived && l.pinnedRequestId in s.inflight && s.inflight[l.pinnedRequestId] == Pinned(f))
  }

  /** A request in flight is the current one of a live load that still needs it. */
  ghost predicate FlightInv(s: State, r: ReqId)
    requires r in s.inflight
  {
    var f := s.inflight[r].folder;
    && 0 < r < s.nextRequest && f in s.loads
    && match s.inflight[r]
       case List(_, offset) => r == s.loads[f].requestId && !s.loads[f].listReceived && offset == s.loads[f].offset
       case Pinned(_) => r == s.loads[f].pinnedRequestId && !s.loads[f].pinnedReceived
  }

  ghost predicate PinnedAsked(l: Load) { l.requestId != 0 ==> l.pinnedReceived || l.pinnedRequestId != 0 }

  ghost predicate Inv(s: State)
  {
    InvExcept(s, {})
  }

  /** In the middle of a step the pinned request of the folders in `x` may still be due. */
  ghost predicate InvExcept(s: State, x: set<Folder>)
  {
    && s.nextRequest > 0
    && (forall f :: f in s.loads && f !in x ==> PinnedAsked(s.loads[f]))
    && (forall f :: f in s.loads ==> LoadInv(s, f))
    && (forall r :: r in s.inflight ==> FlightInv(s, r))
    && Counted(s)
  }

  /** Every load ever started has been posted once, or is the one still there. */
  ghost predicate Counted(s: State)
  {
    forall f :: s.started[f] == s.posted[f] + if f in s.loads then 1 else 0
  }

  /** A list request that was answered "not modified" leaves its number behind. */
  ghost predicate Dead(s: State, f: Folder)
  {
    && f in s.loads && !s.loads[f].listReceived
    && 0 != s.loads[f].requestId < s.nextRequest && s.loads[f].requestId !in s.inflight
  }

  /** What every step keeps: history only grows, and a dead load stays dead, unposted. */
  ghost predicate Later(s: State, s': State)
  {
    && s.nextRequest <= s'.nextRequest && MoreHistory(s, s')
    && forall f :: Dead(s, f) ==> Dead(s', f) && s'.posted[f] == s.posted[f]
  }

  ghost predicate MoreHistory(s: State, s': State)
  {
    s.started <= s'.started && s.posted <= s'.posted
  }

  lemma LaterChain(s: State, t: State, u: State)
    requires Later(s, t) && Later(t, u)
    ensures Later(s, u)
  {
  }

  lemma LaterSame(s: State)
    ensures Later(s, s)
  {
  }

  // ----- consequences of the invariant

  /** Per folder at most one list request and one pinned request are in flight, none of
      them after its answer, and the load outlives both. */
  lemma OneOfEach(s: State, r: ReqId, q: ReqId)
    requires Inv(s) && r in s.inflight && q in s.inflight
    ensures s.inflight[r].folder in s.loads
    ensures s.inflight[r].folder == s.inflight[q].folder && (s.inflight[r].List? <==> s.inflight[q].List?) ==> r == q
    ensures s.inflight[r].List? ==> !s.loads[s.inflight[r].folder].listReceived
  {
    assert FlightInv(s, r) && FlightInv(s, q);
  }

  /** A load that has its list waits for a pinned request that is still in flight. */
  lemma ReceivedListWaitsForPinned(s: State, f: Folder)
    requires Inv(s) && f in s.loads && s.loads[f].listReceived
    ensures s.loads[f].pinnedRequestId in s.inflight && s.inflight[s.loads[f].pinnedRequestId] == Pinned(f)
  {
    assert LoadInv(s, f) && PinnedAsked(s.loads[f]);
  }

  // ----- the next offset

  datatype Dialog = Dialog(peer: Peer, topMessage: MsgId)
  datatype Message = Message(id: MsgId, peer: Peer, date: int)

  /** The three shapes of an answer to a list request. */
  datatype Answer =
    | NotModified
    | Dialogs
    | Slice(dialogs: seq<Dialog>, messages: seq<Message>)

  /** What the rest of the session answers after a reply: whether a filter exception is
      loaded next, and the archive folder if it is loaded and needed. */
  datatype Session = Session(loadsException: bool, archive: Option<Folder>)

  predicate Usable(d: Dialog) { d.peer != 0 && d.topMessage != 0 }

  /** The date of the last listed copy of the dialog's top message, 0 if there is none. */
  function TopDate(d: Dialog, messages: seq<Message>): int
  {
    if messages == [] then 0
    else
      var m := messages[|messages| - 1];
      if m.id == d.topMessage && m.peer == d.peer then m.date else TopDate(d, messages[..|messages| - 1])
  }

  predicate Dated(d: Dialog, messages: seq<Message>) { Usable(d) && TopDate(d, messages) != 0 }

  /** Index of the last element satisfying `p`, -1 if none. */
  ghost predicate LastSuch(dialogs: seq<Dialog>, p: Dialog -> bool, i: int)
  {
    && -1 <= i < |dialogs|
    && (i >= 0 ==> p(dialogs[i]))
    && forall j :: i < j < |dialogs| ==> !p(dialogs[j])
  }

  /** The date comes from the last dialog whose top message is listed with a date; the
      message and peer come from the last usable dialog, which may be another one. */
  ghost predicate OffsetRight(dialogs: seq<Dialog>, messages: seq<Message>, o: Offset, dated: int, usable: int)
  {
    && LastSuch(dialogs, d => Dated(d, messages), dated) && LastSuch(dialogs, d => Usable(d), usable)
    && dated <= usable
    && o.date == (if dated >= 0 then TopDate(dialogs[dated], messages) else 0)
    && o.id == (if usable >= 0 then dialogs[usable].topMessage else 0)
    && o.peer == (if usable >= 0 then dialogs[usable].peer else 0)
  }

  /** The offset a slice gives. */
  ghost predicate OffsetOf(answer: Answer, o: Offset)
  {
    answer.Slice? ==> exists dated, usable :: OffsetRight(answer.dialogs, answer.messages, o, dated, usable)
  }

  predicate HasUsable(dialogs: seq<Dialog>) { exists d :: d in dialogs && Usable(d) }

  predicate HasDated(dialogs: seq<Dialog>, messages: seq<Message>) { exists d :: d in dialogs && Dated(d, messages) }

  /** The usable dialog closest to the end. */
  function LastUsable(dialogs: seq<Dialog>): (d: Dialog)
    requires HasUsable(dialogs)
    ensures d in dialogs && Usable(d)
  {
    var n := |dialogs| - 1;
    if Usable(dialogs[n]) then dialogs[n] else LastUsable(dialogs[..n])
  }

  /** The offset describes one dialog of the slice. */
  ghost predicate OneDialog(dialogs: seq<Dialog>, messages: seq<Message>, o: Offset)
  {
    exists d :: d in dialogs && Usable(d) && o == Offset(TopDate(d, messages), d.topMessage, d.peer)
  }

  /** Peer, message and date come from one dialog exactly when the last usable dialog has its
      top message listed with a date, or there are usable dialogs and none has. In the second
      case there is no date, and the list counts as received. */
  lemma OneDialogExactlyWhen(dialogs: seq<Dialog>, messages: seq<Message>, o: Offset)
    requires OffsetOf(Slice(dialogs, messages), o)
    ensures o.date == 0 <==> !HasDated(dialogs, messages)
    ensures OneDialog(dialogs, messages, o) <==>
      HasUsable(dialogs) && (Dated(LastUsable(dialogs), messages) || !HasDated(dialogs, messages))
  {
    var dated, usable :| OffsetRight(dialogs, messages, o, dated, usable);
    if HasUsable(dialogs) {
      LastUsableAt(dialogs, usable);
    }
    assert HasDated(dialogs, messages) <==> dated >= 0;
    if OneDialog(dialogs, messages, o) {
      var d :| d in dialogs && Usable(d) && o == Offset(TopDate(d, messages), d.topMessage, d.peer);
      assert d == dialogs[usable];
    }
  }

  lemma {:induction false} LastUsableAt(dialogs: seq<Dialog>, i: int)
    requires HasUsable(dialogs) && LastSuch(dialogs, d => Usable(d), i)
    ensures i >= 0 && dialogs[i] == LastUsable(dialogs)
  {
    var n := |dialogs| - 1;
    if !Usable(dialogs[n]) {
      LastUsableAt(dialogs[..n], i);
    }
  }

  /** A slice of two dialogs of which only the first has its top message listed: the next page
      is asked for after the date of the first and the message of the second. */
  lemma MixedOffset(o: Offset)
    requires OffsetOf(Slice([Dialog(7, 11), Dialog(8, 12)], [Message(11, 7, 100)]), o)
    ensures o == Offset(100, 12, 8) && !OneDialog([Dialog(7, 11), Dialog(8, 12)], [Message(11, 7, 100)], o)
  {
    var dialogs, messages := [Dialog(7, 11), Dialog(8, 12)], [Message(11, 7, 100)];
    var dated, usable :| OffsetRight(dialogs, messages, o, dated, usable);
    assert messages[..0] == [];
    assert TopDate(dialogs[0], messages) == 100 && TopDate(dialogs[1], messages) == TopDate(dialogs[1], []) == 0;
    assert Dated(dialogs[0], messages) && Usable(dialogs[1]) && !Dated(dialogs[1], messages);
    assert dated == 0 && usable == 1;
  }

  method ListedDate(d: Dialog, messages: seq<Message>) returns (date: int)
    ensures date == TopDate(d, messages)
  {
    date := 0;
    var i := |messages|;
    assert messages[..i] == messages;
    while i > 0
      invariant 0 <= i <= |messages| && date == 0
      invariant TopDate(d, messages) == TopDate(d, messages[..i])
    {
      i := i - 1;
      assert messages[..i + 1][..i] == messages[..i];
      if messages[i].id == d.topMessage && messages[i].peer == d.peer {
        date := messages[i].date;
        return;
      }
    }
  }

  /** The loops of `updateDialogsOffset`. */
  method NextOffset(dialogs: seq<Dialog>, messages: seq<Message>) returns (o: Offset)
    ensures exists dated, usable :: OffsetRight(dialogs, messages, o, dated, usable)
  {
    o := NO_OFFSET;
    ghost var dated, usable := -1, -1;
    var i := |dialogs|;
    while i > 0
      invariant 0 <= i <= |dialogs| && o.date == 0 && dated == -1
      invariant forall j :: i <= j < |dialogs| ==> !Dated(dialogs[j], messages)
      invariant usable == -1 || i <= usable < |dialogs|
      invariant usable >= 0 ==>
        Usable(dialogs[usable]) && o.id == dialogs[usable].topMessage && o.peer == dialogs[usable].peer
      invariant usable < 0 ==> o == NO_OFFSET
      invariant forall j :: i <= j < |dialogs| && usable < j ==> !Usable(dialogs[j])
    {
      i := i - 1;
      var d := dialogs[i];
      if d.peer != 0 && d.topMessage != 0 {
        if o.peer == 0 {
          o := o.(peer := d.peer);
          usable := i;
        }
        if o.id == 0 {
          o := o.(id := d.topMessage);
        }
        var date := ListedDate(d, messages);
        if date != 0 {
          o := o.(date := date);
          dated := i;
        }
      }
      if o.date != 0 {
        assert OffsetRight(dialogs, messages, o, dated, usable);
        return;
      }
    }
    assert OffsetRight(dialogs, messages, o, dated, usable);
  }

  // ----- the state changes, one by one

  function Sent(s: State, flight: Flight): State
  {
    s.(inflight := s.inflight[s.nextRequest := flight], nextRequest := s.nextRequest + 1)
  }

  function ListAsked(s: State, f: Folder): State
    requires f in s.loads
  {
    Sent(s, List(f, s.loads[f].offset)).(loads := s.loads[f := s.loads[f].(requestId := s.nextRequest)])
  }

  function PinnedSent(s: State, f: Folder): State
    requires f in s.loads
  {
    Sent(s, Pinned(f)).(loads := s.loads[f := s.loads[f].(pinnedRequestId := s.nextRequest)])
  }

  /** Request r has left the network and the load of f has become l. */
  function Answered(s: State, r: ReqId, f: Folder, l: Load): State
  {
    s.(inflight := s.inflight - {r}, loads := s.loads[f := l])
  }

  /** `dialogsLoadFinish`: the load ends once list and pinned are both there. */
  function Closed(s: State, f: Folder): State
    requires f in s.loads
  {
    if s.loads[f].listReceived && s.loads[f].pinnedReceived
    then s.(loads := s.loads - {f}, posted := s.posted + multiset{f})
    else s
  }

  function PinnedDone(s: State, r: ReqId): State
    requires r in s.inflight && s.inflight[r].folder in s.loads
  {
    var f := s.inflight[r].folder;
    Closed(Answered(s, r, f, s.loads[f].(pinnedRequestId := 0, pinnedReceived := true)), f)
  }

  function ListDone(s: State, r: ReqId): State
    requires r in s.inflight && s.inflight[r].folder in s.loads
  {
    var f := s.inflight[r].folder;
    Closed(Answered(s, r, f, s.loads[f].(listReceived := true)), f)
  }

  function ListMoved(s: State, r: ReqId, o: Offset): State
    requires r in s.inflight && s.inflight[r].folder in s.loads
  {
    var f := s.inflight[r].folder;
    Answered(s, r, f, s.loads[f].(offset := o, requestId := 0))
  }

  /** "Not modified" only takes the request off the network. */
  function ListIgnored(s: State, r: ReqId): State { s.(inflight := s.inflight - {r}) }

  function LoadStarted(s: State, f: Folder): State
  {
    if f in s.loads then s else s.(loads := s.loads[f := NEW_LOAD], started := s.started + multiset{f})
  }

  /** Loading stops once it has gone back to the date of the limit, if there is one. */
  predicate BlockedByDate(s: State, till: int)
  {
    && Main in s.loads && !s.loads[Main].listReceived && s.loads[Main].requestId == 0
    && till > 0 && 0 < s.loads[Main].offset.date <= till
  }

  /** The next list request of f, and with the first one the pinned request. */
  function MoreAsked(s: State, f: Folder, blocked: bool): State
  {
    if f !in s.loads || s.loads[f].requestId != 0 || blocked then s
    else
      var t, l := ListAsked(s, f), s.loads[f];
      if l.pinnedReceived || l.pinnedRequestId != 0 then t else PinnedSent(t, f)
  }

  /** `requestDialogs`: a folder without a load starts a new one; the main list is loaded once. */
  function DialogsAsked(s: State, f: Folder, blocked: bool): State
  {
    MoreAsked(if f == Main then s else LoadStarted(s, f), f, blocked)
  }

  /** What a reply asks for next: the main list as long as it has not come, then the archive. */
  function NextAsked(s: State, session: Session, blocked: bool): State
  {
    if session.loadsException then s
    else if Main in s.loads && !s.loads[Main].listReceived then MoreAsked(s, Main, blocked)
    else if session.archive.Some? then MoreAsked(s, session.archive.value, blocked)
    else s
  }

  /** A list answer, where `o` is the next offset found in a slice. */
  function ListApplied(s: State, r: ReqId, answer: Answer, o: Offset): State
    requires r in s.inflight && s.inflight[r].folder in s.loads
  {
    match answer
    case NotModified => ListIgnored(s, r)
    case Dialogs => ListDone(s, r)
    case Slice(_, _) => if o.date != 0 then ListMoved(s, r, o) else ListDone(s, r)
  }

  lemma ClosedCounts(s: State, r: ReqId, f: Folder, l: Load)
    requires Counted(s) && f in s.loads
    ensures var s' := Closed(Answered(s, r, f, l), f); Counted(s') && MoreHistory(s, s')
  {
  }

  lemma SameCounts(s: State, s': State)
    requires Counted(s) && s'.loads.Keys == s.loads.Keys && s'.started == s.started && s'.posted == s.posted
    ensures Counted(s') && MoreHistory(s, s')
  {
  }

  lemma StartedCounts(s: State, f: Folder)
    requires Counted(s)
    ensures Counted(LoadStarted(s, f)) && MoreHistory(s, LoadStarted(s, f))
  {
  }

  lemma ListAskedInv(s: State, f: Folder)
    requires Inv(s) && f in s.loads && s.loads[f].requestId == 0
    ensures InvExcept(ListAsked(s, f), {f}) && Later(s, ListAsked(s, f))
  {
    var s' := ListAsked(s, f);
    assert s'.loads.Keys == s.loads.Keys;
    SameCounts(s, s');
    hide Counted, MoreHistory;
    forall g | g in s'.loads
      ensures LoadInv(s', g)
    {
      assert LoadInv(s, g) && LoadInv(s, f);
    }
    forall q | q in s'.inflight
      ensures FlightInv(s', q)
    {
      if q != s.nextRequest {
        assert FlightInv(s, q);
      }
    }
    hide LoadInv, FlightInv;
  }

  /** A change that answers nothing keeps the loads that can never finish. */
  lemma StillDead(s: State, s': State)
    requires MoreHistory(s, s') && s.nextRequest <= s'.nextRequest && s'.posted == s.posted
    requires forall r :: r in s'.inflight ==> r in s.inflight || r >= s.nextRequest
    requires forall f :: f in s.loads ==>
      f in s'.loads && s'.loads[f].requestId == s.loads[f].requestId
      && s'.loads[f].listReceived == s.loads[f].listReceived
    ensures Later(s, s')
  {
    hide MoreHistory;
  }

  lemma PinnedSentLoad(s: State, f: Folder, g: Folder)
    requires f in s.loads && g in s.loads && LoadInv(s, g) && LoadInv(s, f)
    requires s.loads[f].pinnedRequestId == 0 && !s.loads[f].pinnedReceived && s.nextRequest !in s.inflight
    ensures LoadInv(PinnedSent(s, f), g)
  {
  }

  lemma PinnedSentFlight(s: State, f: Folder, q: ReqId)
    requires f in s.loads && s.nextRequest > 0 && q in PinnedSent(s, f).inflight
    requires s.loads[f].pinnedRequestId == 0 && !s.loads[f].pinnedReceived
    requires q != s.nextRequest ==> q in s.inflight && FlightInv(s, q)
    ensures FlightInv(PinnedSent(s, f), q)
  {
  }

  lemma PinnedSentInv(s: State, f: Folder)
    requires InvExcept(s, {f}) && f in s.loads && s.loads[f].pinnedRequestId == 0 && !s.loads[f].pinnedReceived
    ensures Inv(PinnedSent(s, f)) && Later(s, PinnedSent(s, f))
  {
    var s' := PinnedSent(s, f);
    assert s'.loads.Keys == s.loads.Keys;
    SameCounts(s, s');
    StillDead(s, s');
    assert s.nextRequest in s.inflight ==> FlightInv(s, s.nextRequest);
    hide Counted, MoreHistory, Later, LoadInv, FlightInv;
    forall g | g in s'.loads
      ensures LoadInv(s', g)
    {
      PinnedSentLoad(s, f, g);
    }
    forall q | q in s'.inflight
      ensures FlightInv(s', q)
    {
      PinnedSentFlight(s, f, q);
    }
  }

  lemma PinnedAlready(s: State, f: Folder)
    requires InvExcept(s, {f})
    requires f in s.loads ==> s.loads[f].pinnedReceived || s.loads[f].pinnedRequestId != 0
    ensures Inv(s)
  {
    hide LoadInv, FlightInv;
  }

  lemma PinnedDoneInv(s: State, r: ReqId)
    requires Inv(s) && r in s.inflight && s.inflight[r].Pinned?
    ensures s.inflight[r].folder in s.loads
    ensures Inv(PinnedDone(s, r)) && Later(s, PinnedDone(s, r))
  {
    assert FlightInv(s, r);
    var s' := PinnedDone(s, r);
    var f := s.inflight[r].folder;
    ClosedCounts(s, r, f, s.loads[f].(pinnedRequestId := 0, pinnedReceived := true));
    hide Counted, MoreHistory;
    forall g | g in s'.loads
      ensures LoadInv(s', g)
    {
      assert LoadInv(s, g);
    }
    forall q | q in s'.inflight
      ensures FlightInv(s', q)
    {
      assert FlightInv(s, q);
    }
    hide LoadInv, FlightInv;
  }

  lemma ListDoneInv(s: State, r: ReqId)
    requires Inv(s) && r in s.inflight && s.inflight[r].List?
    ensures s.inflight[r].folder in s.loads
    ensures Inv(ListDone(s, r)) && Later(s, ListDone(s, r)) && !Dead(ListDone(s, r), s.inflight[r].folder)
  {
    assert FlightInv(s, r);
    var f := s.inflight[r].folder;
    assert LoadInv(s, f) && PinnedAsked(s.loads[f]);
    var s' := ListDone(s, r);
    ClosedCounts(s, r, f, s.loads[f].(listReceived := true));
    hide Counted, MoreHistory;
    forall g | g in s'.loads
      ensures LoadInv(s', g)
    {
      assert LoadInv(s, g);
    }
    forall q | q in s'.inflight
      ensures FlightInv(s', q)
    {
      assert FlightInv(s, q);
    }
    hide LoadInv, FlightInv;
  }

  lemma ListMovedInv(s: State, r: ReqId, o: Offset)
    requires Inv(s) && r in s.inflight && s.inflight[r].List?
    ensures s.inflight[r].folder in s.loads
    ensures Inv(ListMoved(s, r, o)) && Later(s, ListMoved(s, r, o)) && !Dead(ListMoved(s, r, o), s.inflight[r].folder)
  {
    assert FlightInv(s, r);
    var s' := ListMoved(s, r, o);
    assert s'.loads.Keys == s.loads.Keys;
    SameCounts(s, s');
    hide Counted, MoreHistory;
    forall g | g in s'.loads
      ensures LoadInv(s', g)
    {
      assert LoadInv(s, g);
    }
    forall q | q in s'.inflight
      ensures FlightInv(s', q)
    {
      assert FlightInv(s, q);
    }
    hide LoadInv, FlightInv;
  }

  /** "Not modified" is the one answer after which a load can never finish. */
  lemma ListIgnoredInv(s: State, r: ReqId)
    requires Inv(s) && r in s.inflight && s.inflight[r].List?
    ensures Inv(ListIgnored(s, r)) && Later(s, ListIgnored(s, r)) && Dead(ListIgnored(s, r), s.inflight[r].folder)
  {
    assert FlightInv(s, r);
    var s' := ListIgnored(s, r);
    assert s'.loads.Keys == s.loads.Keys;
    SameCounts(s, s');
    hide Counted, MoreHistory;
    forall g | g in s'.loads
      ensures LoadInv(s', g)
    {
      assert LoadInv(s, g);
    }
    forall q | q in s'.inflight
      ensures FlightInv(s', q)
    {
      assert FlightInv(s, q);
    }
    hide LoadInv, FlightInv;
  }

  lemma LoadStartedLoad(s: State, f: Folder, g: Folder)
    requires s.nextRequest > 0 && g in LoadStarted(s, f).loads && (g in s.loads ==> LoadInv(s, g))
    ensures LoadInv(LoadStarted(s, f), g)
  {
  }

  lemma LoadStartedFlight(s: State, f: Folder, q: ReqId)
    requires q in s.inflight && FlightInv(s, q)
    ensures FlightInv(LoadStarted(s, f), q)
  {
  }

  lemma LoadStartedInv(s: State, f: Folder)
    requires Inv(s)
    ensures Inv(LoadStarted(s, f)) && Later(s, LoadStarted(s, f))
  {
    var s' := LoadStarted(s, f);
    StartedCounts(s, f);
    StillDead(s, s');
    hide Counted, MoreHistory, Later, LoadInv, FlightInv;
    forall g | g in s'.loads
      ensures LoadInv(s', g)
    {
      LoadStartedLoad(s, f, g);
    }
    forall q | q in s'.inflight
      ensures FlightInv(s', q)
    {
      LoadStartedFlight(s, f, q);
    }
  }

  // ----- runs

  lemma MoreAskedInv(s: State, f: Folder, blocked: bool)
    requires Inv(s)
    ensures Inv(MoreAsked(s, f, blocked)) && Later(s, MoreAsked(s, f, blocked))
  {
    hide Inv, InvExcept, Later;
    LaterSame(s);
    if f in s.loads && s.loads[f].requestId == 0 && !blocked {
      var t := ListAsked(s, f);
      ListAskedInv(s, f);
      if t.loads[f].pinnedReceived || t.loads[f].pinnedRequestId != 0 {
        PinnedAlready(t, f);
      } else {
        PinnedSentInv(t, f);
        LaterChain(s, t, PinnedSent(t, f));
      }
    }
  }

  lemma DialogsAskedInv(s: State, f: Folder, blocked: bool)
    requires Inv(s)
    ensures Inv(DialogsAsked(s, f, blocked)) && Later(s, DialogsAsked(s, f, blocked))
  {
    hide Inv, InvExcept, Later, LoadStarted, MoreAsked;
    if f == Main {
      MoreAskedInv(s, f, blocked);
    } else {
      LoadStartedInv(s, f);
      MoreAskedInv(LoadStarted(s, f), f, blocked);
      LaterChain(s, LoadStarted(s, f), DialogsAsked(s, f, blocked));
    }
  }

  lemma NextAskedInv(s: State, session: Session, blocked: bool)
    requires Inv(s)
    ensures Inv(NextAsked(s, session, blocked)) && Later(s, NextAsked(s, session, blocked))
  {
    hide Inv, InvExcept, Later, MoreAsked;
    LaterSame(s);
    MoreAskedInv(s, Main, blocked);
    if session.archive.Some? {
      MoreAskedInv(s, session.archive.value, blocked);
    }
  }

  lemma ListAppliedInv(s: State, r: ReqId, answer: Answer, o: Offset)
    requires Inv(s) && r in s.inflight && s.inflight[r].List?
    ensures s.inflight[r].folder in s.loads
    ensures Inv(ListApplied(s, r, answer, o)) && Later(s, ListApplied(s, r, answer, o))
    ensures Dead(ListApplied(s, r, answer, o), s.inflight[r].folder) <==> answer.NotModified?
  {
    hide Inv, InvExcept, Later, Dead, ListMoved, ListIgnored, ListDone;
    ListDoneInv(s, r);
    ListMovedInv(s, r, o);
    ListIgnoredInv(s, r);
  }

  /** `blocked` is the value of the flag at that moment: the properties hold whatever it is. */
  datatype Event =
    | AskDialogs(folder: Folder, blocked: bool)
    | AskMore(folder: Folder, blocked: bool)
    | ListReply(r: ReqId, answer: Answer, o: Offset, session: Session, blocked: bool)
    | ListFailure(r: ReqId)
    | PinnedReply(r: ReqId)

  /** The load a reply dereferences exists; without it the step below could end anywhere. */
  ghost predicate Answers(s: State, r: ReqId)
  {
    r in s.inflight && s.inflight[r].folder in s.loads
  }

  ghost predicate Step(s: State, e: Event, s': State)
  {
    match e
    case AskDialogs(f, blocked) => s' == DialogsAsked(s, f, blocked)
    case AskMore(f, blocked) => s' == MoreAsked(s, f, blocked)
    case ListReply(r, answer, o, session, blocked) =>
      r in s.inflight && s.inflight[r].List? &&
      (Answers(s, r) ==> s' == NextAsked(ListApplied(s, r, answer, o), session, blocked))
    case ListFailure(r) =>
      r in s.inflight && s.inflight[r].List? &&
      (Answers(s, r) ==> s' == ListMoved(s, r, s.loads[s.inflight[r].folder].offset))
    case PinnedReply(r) =>
      r in s.inflight && s.inflight[r].Pinned? && (Answers(s, r) ==> s' == PinnedDone(s, r))
  }

  lemma StepInv(s: State, e: Event, s': State)
    requires Inv(s) && Step(s, e, s')
    ensures Inv(s') && Later(s, s')
  {
    hide Inv, InvExcept, Later, NextAsked, MoreAsked, DialogsAsked, ListApplied, ListMoved, PinnedDone, Dead;
    match e
    case AskDialogs(f, blocked) => DialogsAskedInv(s, f, blocked);
    case AskMore(f, blocked) => MoreAskedInv(s, f, blocked);
    case ListReply(r, answer, o, session, blocked) =>
      ListAppliedInv(s, r, answer, o);
      var t := ListApplied(s, r, answer, o);
      NextAskedInv(t, session, blocked);
      LaterChain(s, t, s');
    case ListFailure(r) =>
      OneOfEach(s, r, r);
      ListMovedInv(s, r, s.loads[s.inflight[r].folder].offset);
    case PinnedReply(r) =>
      PinnedDoneInv(s, r);
  }

  /** The main list's load exists from the start. */
  const START := State(map[Main := NEW_LOAD], map[], 1, multiset{Main}, multiset{})

  ghost predicate IsRun(states: seq<State>, events: seq<Event>)
  {
    && |states| == |events| + 1 && states[0] == START
    && forall i :: 0 <= i < |events| ==> Step(states[i], events[i], states[i + 1])
  }

  lemma {:induction false} RunInv(states: seq<State>, events: seq<Event>, i: nat, j: nat)
    requires IsRun(states, events) && i <= j <= |events|
    ensures Inv(states[i]) && Inv(states[j]) && Later(states[i], states[j])
    decreases j
  {
    hide Inv, InvExcept, Later, Step;
    if i < j {
      RunInv(states, events, i, j - 1);
      StepInv(states[j - 1], events[j - 1], states[j]);
      LaterChain(states[i], states[j - 1], states[j]);
    } else {
      LaterSame(states[i]);
      if i == 0 {
        assert Inv(START) by { StartInv(); }
      } else {
        RunInv(states, events, i - 1, i - 1);
        StepInv(states[i - 1], events[i - 1], states[i]);
      }
    }
  }

  lemma StartInv()
    ensures Inv(START)
  {
  }

  /** Over every run "list done" has been posted once for each load that was started and has
      ended, and a folder whose list request was answered "not modified" is never done again. */
  lemma PostedExactly(states: seq<State>, events: seq<Event>, i: nat, j: nat, f: Folder)
    requires IsRun(states, events) && i <= j <= |events|
    ensures states[j].started[f] == states[j].posted[f] + if f in states[j].loads then 1 else 0
    ensures Dead(states[i], f) ==> f in states[j].loads && states[j].posted[f] == states[i].posted[f]
  {
    RunInv(states, events, i, j);
    hide FlightInv, LoadInv, PinnedAsked;
  }

  /** A run at rest: with nothing in flight, a load that is still there has not got its list,
      and either asks for nothing or can never finish. */
  lemma AtRest(states: seq<State>, events: seq<Event>, f: Folder)
    requires IsRun(states, events)
    requires var s := states[|events|]; s.inflight == map[] && f in s.loads
    ensures var s := states[|events|];
      !s.loads[f].listReceived && s.loads[f].pinnedRequestId == 0 && (Dead(s, f) <==> s.loads[f].requestId != 0)
  {
    RunInv(states, events, |events|, |events|);
    assert LoadInv(states[|events|], f) && PinnedAsked(states[|events|].loads[f]);
  }

  // ----- the load goes on

  /** A list request for f is in flight, for what is behind o. */
  ghost predicate Asking(s: State, f: Folder, o: Offset)
  {
    exists r :: r in s.inflight && s.inflight[r] == List(f, o)
  }

  lemma MoreAskedGoes(s: State, f: Folder)
    requires f in s.loads && s.loads[f].requestId == 0
    ensures Asking(MoreAsked(s, f, false), f, s.loads[f].offset)
  {
    var t, r := MoreAsked(s, f, false), s.nextRequest;
    assert ListAsked(s, f).inflight[r] == List(f, s.loads[f].offset);
    assert r in t.inflight && t.inflight[r] == List(f, s.loads[f].offset);
  }

  /** After a page of the main list the next one is asked for, behind the offset of that page,
      unless an exception is loaded first or loading is blocked. */
  lemma NextPageAsked(s: State, r: ReqId, answer: Answer, o: Offset, session: Session)
    requires Inv(s) && r in s.inflight && s.inflight[r].List? && s.inflight[r].folder == Main
    requires answer.Slice? && o.date != 0 && !session.loadsException
    ensures Main in s.loads
    ensures Asking(NextAsked(ListApplied(s, r, answer, o), session, false), Main, o)
  {
    assert FlightInv(s, r);
    MoreAskedGoes(ListApplied(s, r, answer, o), Main);
  }

  /** Once the main list has come, an idle archive that is needed is asked for, behind its own
      offset. */
  lemma ArchiveAsked(s: State, f: Folder)
    requires (Main in s.loads ==> s.loads[Main].listReceived) && f in s.loads && s.loads[f].requestId == 0
    ensures Asking(NextAsked(s, Session(false, Some(f)), false), f, s.loads[f].offset)
  {
    MoreAskedGoes(s, f);
  }

  /** Asking for a folder that is not being loaded starts at its beginning; an idle load goes
      on where it stopped. */
  lemma FolderAsked(s: State, f: Folder)
    requires f in s.loads ==> s.loads[f].requestId == 0
    requires f == Main ==> f in s.loads
    ensures Asking(DialogsAsked(s, f, false), f, if f in s.loads then s.loads[f].offset else NO_OFFSET)
  {
    MoreAskedGoes(if f == Main then s else LoadStarted(s, f), f);
  }

  /** Moving the limit back by a slice always lifts the block. */
  lemma LimitMovedUnblocks(s: State, now: int, slice: int)
    requires Main in s.loads && slice > 0
    ensures var date := s.loads[Main].offset.date;
      !BlockedByDate(s, if date != 0 then date - slice else now - slice)
  {
  }

  predicate MainIdle(s: State) { Main in s.loads && s.loads[Main].requestId == 0 }

  /** The event asks for the main list if it is idle. */
  predicate Drives(e: Event)
  {
    match e
    case AskDialogs(f, blocked) => f == Main && !blocked
    case AskMore(f, blocked) => f == Main && !blocked
    case ListReply(_, _, _, session, blocked) => !session.loadsException && !blocked
    case _ => false
  }

  /** The event leaves the main list idle: its request failed, or its page came while an
      exception was to be loaded first or loading was blocked. */
  predicate Idles(s: State, e: Event)
  {
    match e
    case ListReply(r, _, _, session, blocked) =>
      r in s.inflight && s.inflight[r].folder == Main && (session.loadsException || blocked)
    case ListFailure(r) => r in s.inflight && s.inflight[r].folder == Main
    case _ => false
  }

  lemma MoreAskedBusy(s: State, f: Folder, blocked: bool)
    requires s.nextRequest > 0
    ensures var t := MoreAsked(s, f, blocked);
      && (MainIdle(t) ==> MainIdle(s) && (f != Main || blocked))
      && (Main in t.loads <==> Main in s.loads)
      && (MainIdle(t) ==> t.loads[Main] == s.loads[Main])
  {
  }

  lemma StepBusy(s: State, e: Event, s': State)
    requires Inv(s) && Step(s, e, s') && MainIdle(s')
    ensures Idles(s, e) || (MainIdle(s) && !Drives(e))
  {
    hide MoreAsked, Later;
    match e
    case AskDialogs(f, blocked) => MoreAskedBusy(if f == Main then s else LoadStarted(s, f), f, blocked);
    case AskMore(f, blocked) => MoreAskedBusy(s, f, blocked);
    case ListReply(r, answer, o, session, blocked) =>
      assert FlightInv(s, r);
      hide Inv;
      RepliedBusy(s, r, answer, o, session, blocked);
    case ListFailure(r) => assert FlightInv(s, r);
    case PinnedReply(r) => assert FlightInv(s, r);
  }

  lemma RepliedBusy(s: State, r: ReqId, answer: Answer, o: Offset, session: Session, blocked: bool)
    requires Inv(s) && r in s.inflight && s.inflight[r].List? && s.inflight[r].folder in s.loads
    requires MainIdle(NextAsked(ListApplied(s, r, answer, o), session, blocked))
    ensures Idles(s, ListReply(r, answer, o, session, blocked))
      || (MainIdle(s) && !Drives(ListReply(r, answer, o, session, blocked)))
  {
    hide MoreAsked, Closed;
    assert s.nextRequest > 0;
    ReceivedBusy(s, r, answer, o);
    AppliedBusy(s, r, answer, o);
    var t := ListApplied(s, r, answer, o);
    hide Inv, ListApplied;
    MoreAskedBusy(t, Main, blocked);
    if session.archive.Some? { MoreAskedBusy(t, session.archive.value, blocked); }
  }

  /** Only the reply to its own request can leave the main list idle. */
  lemma AppliedBusy(s: State, r: ReqId, answer: Answer, o: Offset)
    requires r in s.inflight && s.inflight[r].folder in s.loads
    ensures var t := ListApplied(s, r, answer, o);
      t.nextRequest == s.nextRequest && (MainIdle(t) ==> MainIdle(s) || s.inflight[r].folder == Main)
  {
  }

  lemma ReceivedBusy(s: State, r: ReqId, answer: Answer, o: Offset)
    requires Inv(s) && r in s.inflight && s.inflight[r].List? && s.inflight[r].folder in s.loads
    ensures var t := ListApplied(s, r, answer, o);
      Main in t.loads && t.loads[Main].listReceived ==> t.loads[Main].requestId != 0
  {
    ListAppliedInv(s, r, answer, o);
    var t := ListApplied(s, r, answer, o);
    assert Main in t.loads ==> LoadInv(t, Main);
  }

  /** Over every run: once something has asked for the main list, it is idle only because its
      request failed later, or its page came later while it could not go on. */
  lemma {:induction false} IdleOnlyBecause(states: seq<State>, events: seq<Event>, i: nat)
    requires IsRun(states, events) && i < |events| && Drives(events[i]) && MainIdle(states[|events|])
    ensures exists j :: i <= j < |events| && Idles(states[j], events[j])
    decreases |events|
  {
    var n := |events| - 1;
    RunInv(states, events, n, n);
    StepBusy(states[n], events[n], states[n + 1]);
    if !Idles(states[n], events[n]) {
      assert i < n;
      IdleOnlyBecause(states[..n + 1], events[..n], i);
      var j :| i <= j < n && Idles(states[..n + 1][j], events[..n][j]);
      assert Idles(states[j], events[j]);
    }
  }

  /** At rest an unfinished main list can never finish, or is idle for one of those reasons,
      or was never asked for. */
  lemma RestingMain(states: seq<State>, events: seq<Event>, i: nat)
    requires IsRun(states, events) && states[|events|].inflight == map[] && Main in states[|events|].loads
    requires i < |events| && Drives(events[i])
    ensures Dead(states[|events|], Main) || exists j :: i <= j < |events| && Idles(states[j], events[j])
  {
    AtRest(states, events, Main);
    if MainIdle(states[|events|]) {
      IdleOnlyBecause(states, events, i);
    }
  }

  /** And that happens: the first list request of the main list is answered "not modified". */
  lemma NotModifiedRun(session: Session) returns (states: seq<State>, events: seq<Event>)
    ensures IsRun(states, events) && Dead(states[|events|], Main)
  {
    var e1, e2 := AskDialogs(Main, false), ListReply(1, NotModified, NO_OFFSET, session, false);
    var s1 := DialogsAsked(START, Main, false);
    var s2 := ListIgnored(s1, 1);
    states, events := [START, s1, s2], [e1, e2];
    assert Step(states[0], events[0], states[1]);
    assert Step(states[1], events[1], states[2]);
  }

  /** While the main list is blocked by date, no request for it is in flight. */
  lemma BlockedIsQuiet(s: State, till: int, r: ReqId)
    requires Inv(s) && BlockedByDate(s, till) && r in s.inflight
    ensures !(s.inflight[r].List? && s.inflight[r].folder == Main)
  {
    assert FlightInv(s, r);
  }

  // ----- the code

  class ApiWrap {
    var loads: map<Folder, Load>
    var inflight: map<ReqId, Flight>
    var nextRequest: ReqId
    var loadTill: int
    var blockedByDate: bool
    ghost var started: multiset<Folder>
    ghost var posted: multiset<Folder>

    ghost function St(): State
      reads this
    {
      State(loads, inflight, nextRequest, started, posted)
    }

    constructor ()
      ensures St() == START
    {
      loads, inflight, nextRequest := map[Main := NEW_LOAD], map[], 1;
      loadTill, blockedByDate := 0, false;
      started, posted := multiset{Main}, multiset{};
    }

    method Send(flight: Flight) returns (r: ReqId)
      modifies this`inflight, this`nextRequest
      ensures r == old(nextRequest) && nextRequest == r + 1 && inflight == old(inflight)[r := flight]
    {
      r := nextRequest;
      inflight, nextRequest := inflight[r := flight], nextRequest + 1;
    }

    method RefreshDialogsLoadBlocked()
      modifies this`blockedByDate
      ensures blockedByDate == BlockedByDate(St(), loadTill)
    {
      blockedByDate := Main in loads && !loads[Main].listReceived && loads[Main].requestId == 0
        && loadTill > 0 && 0 < loads[Main].offset.date <= loadTill;
    }

    method RequestPinnedDialogs(folder: Folder)
      requires InvExcept(St(), {folder})
      modifies this`loads, this`inflight, this`nextRequest
      ensures Inv(St()) && Later(old(St()), St())
      ensures var s := old(St());
        St() == if folder in s.loads && !s.loads[folder].pinnedReceived && s.loads[folder].pinnedRequestId == 0
          then PinnedSent(s, folder) else s
    {
      hide InvExcept, Inv, Later, LoadInv, FlightInv;
      ghost var s := St();
      LaterSame(s);
      if folder !in loads || loads[folder].pinnedReceived || loads[folder].pinnedRequestId != 0 {
        PinnedAlready(s, folder);
        return;
      }
      PinnedSentInv(s, folder);
      var r := Send(Pinned(folder));
      loads := loads[folder := loads[folder].(pinnedRequestId := r)];
    }

    /** Sends the next list request unless there is no load, one is out, or loading is blocked. */
    method RequestMoreDialogs(folder: Folder)
      requires Inv(St())
      modifies this
      ensures Inv(St()) && Later(old(St()), St())
      ensures St() == MoreAsked(old(St()), folder, old(blockedByDate)) && loadTill == old(loadTill)
      ensures blockedByDate == if folder == Main && St() != old(St()) then BlockedByDate(St(), loadTill)
        else old(blockedByDate)
    {
      hide InvExcept, Inv, Later, LoadInv, FlightInv;
      ghost var s := St();
      LaterSame(s);
      if folder !in loads || loads[folder].requestId != 0 || blockedByDate {
        return;
      }
      ListAskedInv(s, folder);
      var r := Send(List(folder, loads[folder].offset));
      loads := loads[folder := loads[folder].(requestId := r)];
      ghost var t := St();
      if !loads[folder].pinnedReceived {
        RequestPinnedDialogs(folder);
        LaterChain(s, t, St());
      } else {
        PinnedAlready(t, folder);
      }
      if folder == Main {
        RefreshDialogsLoadBlocked();
      }
    }

    method RequestDialogs(folder: Folder)
      requires Inv(St())
      modifies this
      ensures Inv(St()) && Later(old(St()), St())
      ensures St() == DialogsAsked(old(St()), folder, old(blockedByDate))
    {
      hide Inv, Later;
      ghost var s := St();
      LaterSame(s);
      if folder != Main && folder !in loads {
        LoadStartedInv(s, folder);
        loads := loads[folder := NEW_LOAD];
        started := started + multiset{folder};
      }
      ghost var t := St();
      RequestMoreDialogs(folder);
      LaterChain(s, t, St());
    }

    method DialogsLoadFinish(folder: Folder)
      requires folder in loads
      modifies this`loads, this`posted
      ensures St() == Closed(old(St()), folder)
    {
      if folder !in loads || !loads[folder].listReceived || !loads[folder].pinnedReceived {
        return;
      }
      loads := loads - {folder};
      posted := posted + multiset{folder};
    }

    /** The reply to a pinned request, or its failure. */
    method FinishPinned(r: ReqId)
      requires Inv(St()) && r in inflight && inflight[r].Pinned?
      modifies this
      ensures Inv(St()) && Later(old(St()), St())
      ensures old(inflight)[r].folder in old(loads) && St() == PinnedDone(old(St()), r)
    {
      hide Inv, Later, Closed;
      PinnedDoneInv(St(), r);
      var folder := inflight[r].folder;
      inflight := inflight - {r};
      if folder in loads {
        loads := loads[folder := loads[folder].(pinnedRequestId := 0, pinnedReceived := true)];
        DialogsLoadFinish(folder);
      }
    }

    /** The failure of a list request: the load it belongs to is always still there. */
    method ListFailed(r: ReqId)
      requires Inv(St()) && r in inflight && inflight[r].List?
      modifies this
      ensures Inv(St()) && Later(old(St()), St())
      ensures var f := old(inflight)[r].folder; f in old(loads) && St() == ListMoved(old(St()), r, old(loads)[f].offset)
    {
      hide Inv, Later;
      OneOfEach(St(), r, r);
      var folder := inflight[r].folder;
      ListMovedInv(St(), r, loads[folder].offset);
      inflight := inflight - {r};
      loads := loads[folder := loads[folder].(requestId := 0)];
    }

    /** The reply to a list request, up to what it asks for next. */
    method ApplyList(r: ReqId, answer: Answer) returns (ghost o: Offset)
      requires Inv(St()) && r in inflight && inflight[r].List?
      modifies this`inflight, this`loads, this`posted
      ensures Inv(St()) && Later(old(St()), St()) && old(inflight)[r].folder in old(loads)
      ensures Dead(St(), old(inflight)[r].folder) <==> answer.NotModified?
      ensures OffsetOf(answer, o) && St() == ListApplied(old(St()), r, answer, o)
    {
      hide Inv, Later, Closed, Dead;
      ghost var s := St();
      ListDoneInv(s, r);
      ListIgnoredInv(s, r);
      var folder := inflight[r].folder;
      inflight, o := inflight - {r}, NO_OFFSET;
      match answer {
        case NotModified =>
        case Dialogs =>
          loads := loads[folder := loads[folder].(listReceived := true)];
          DialogsLoadFinish(folder);
        case Slice(dialogs, messages) =>
          var next := NextOffset(dialogs, messages);
          o := next;
          if next.date != 0 {
            ListMovedInv(s, r, next);
            loads := loads[folder := loads[folder].(offset := next, requestId := 0)];
          } else {
            loads := loads[folder := loads[folder].(listReceived := true)];
            DialogsLoadFinish(folder);
          }
      }
    }

    method RequestMoreDialogsIfNeeded(session: Session)
      requires Inv(St())
      modifies this
      ensures Inv(St()) && Later(old(St()), St())
      ensures St() == NextAsked(old(St()), session, old(blockedByDate))
    {
      hide Inv, Later;
      LaterSame(St());
      if session.loadsException {
        return;
      } else if Main in loads && !loads[Main].listReceived {
        if loads[Main].requestId != 0 {
          return;
        }
        RequestDialogs(Main);
      } else if session.archive.Some? {
        RequestMoreDialogs(session.archive.value);
      }
    }

    method GotList(r: ReqId, answer: Answer, session: Session) returns (ghost o: Offset)
      requires Inv(St()) && r in inflight && inflight[r].List?
      modifies this
      ensures Inv(St()) && Later(old(St()), St()) && old(inflight)[r].folder in old(loads)
      ensures OffsetOf(answer, o)
      ensures
        var f := old(inflight)[r].folder;
        var t := ListApplied(old(St()), r, answer, o);
        var listed := Main in t.loads && t.loads[Main].listReceived;
        var blocked := if f == Main && !listed then BlockedByDate(t, old(loadTill)) else old(blockedByDate);
        St() == NextAsked(t, session, blocked)
    {
      hide Inv, Later;
      ghost var s := St();
      var folder := inflight[r].folder;
      o := ApplyList(r, answer);
      ghost var t := St();
      if folder == Main && (Main !in loads || !loads[Main].listReceived) {
        RefreshDialogsLoadBlocked();
      }
      RequestMoreDialogsIfNeeded(session);
      LaterChain(s, t, St());
    }

    method RequestMoreBlockedByDateDialogs(now: int, slice: int)
      requires Inv(St())
      modifies this
      ensures Inv(St()) && Later(old(St()), St())
      ensures Main !in old(loads) ==> St() == old(St()) && loadTill == old(loadTill)
      ensures
        Main in old(loads) ==>
          var date := old(loads)[Main].offset.date;
          var till := if date != 0 then date - slice else now - slice;
          St() == DialogsAsked(old(St()), Main, BlockedByDate(old(St()), till))
    {
      hide Inv, Later;
      LaterSame(St());
      if Main !in loads {
        return;
      }
      loadTill := if loads[Main].offset.date != 0 then loads[Main].offset.date - slice else now - slice;
      RefreshDialogsLoadBlocked();
      RequestDialogs(Main);
    }
  }
}
