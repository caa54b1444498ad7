/** All sequences of room commands. */
module RoomRuns {
  import opened RoomModel
  import opened RoomSafety

  datatype Command =
    | JoinRoom(p: string, bound: bool, order: seq<string>, refused: set<(string, string)>)
    | LeaveRoom(p: string, walks: Walks)
    | PublishTrack(p: string, t: string, ready: bool, order: seq<string>, refused: set<(string, string)>)
    | UnpublishTrack(t: string, order: seq<string>)
    | SubscribeTrack(p: string, t: string, refused: set<(string, string)>)
    | UnsubscribeTrack(p: string, t: string)
    | CloseRoom(order: seq<string>)
    | TouchParticipant(p: string)
    | BindMedia(p: string, bound: bool)

  /** The walks are walks over the containers they stand for. */
  predicate WalksRight(r: Room, c: Command) {
    match c
    case JoinRoom(p, _, order, _) => Lists(order, OthersTracks(r, p))
    case LeaveRoom(p, w) =>
      && Lists(w.subscriptions, TracksOf(r, p)) && Lists(w.tracks, PublishedBy(r, p))
      && forall t :: t in PublishedBy(r, p) ==> Lists(MembersOf(w, t), SubscribersOf(r, t))
    case PublishTrack(p, _, _, order, _) => Lists(order, r.participants.Keys - {p})
    case UnpublishTrack(t, order) => Lists(order, SubscribersOf(r, t))
    case CloseRoom(order) => Lists(order, r.tracks.Keys)
    case _ => true
  }

  function Apply(r: Room, c: Command): Room {
    match c
    case JoinRoom(p, bound, order, refused) => Join(r, p, bound, order, refused).0
    case LeaveRoom(p, w) => Leave(r, p, w).0
    case PublishTrack(p, t, ready, order, refused) => Publish(r, p, t, ready, order, refused).0
    case UnpublishTrack(t, order) => Unpublish(r, t, order).0
    case SubscribeTrack(p, t, refused) => Subscribe(r, p, t, refused).0
    case UnsubscribeTrack(p, t) => Unsubscribe(r, p, t)
    case CloseRoom(order) => Close(r, order)
    case TouchParticipant(p) => Touch(r, p)
    case BindMedia(p, bound) => Bind(r, p, bound)
  }

  // ---- joining ----

  lemma Stranger(r: Room, p: string)
    requires Mirrored(r) && Joined(r) && OwnedTracks(r) && p !in r.participants
    ensures TracksOf(r, p) == {} && PublishedBy(r, p) == {}
  {
    assert forall t :: p in SubscribersOf(r, t) ==> Eligible(r, p, t);
    hide SubscribersOf;
    forall t ensures t !in TracksOf(r, p) {
      assert t in TracksOf(r, p) <==> p in SubscribersOf(r, t);
    }
  }

  /** The same indexes, and every participant's own set still what the index says. */
  lemma MirroredFrame(r: Room, q: Room)
    requires Mirrored(r) && q.byTrack == r.byTrack && q.byParticipant == r.byParticipant
    requires forall p :: p in q.participants ==> q.participants[p].subscribed == TracksOf(r, p)
    ensures Mirrored(q)
  {
    assert forall t :: SubscribersOf(q, t) == SubscribersOf(r, t);
    assert forall p :: TracksOf(q, p) == TracksOf(r, p);
    hide SubscribersOf, TracksOf;
  }

  /** The same subscriptions, none of which became impossible. */
  lemma JoinedFrame(r: Room, q: Room)
    requires Joined(r) && q.byTrack == r.byTrack
    requires forall p, t :: p in SubscribersOf(r, t) && Eligible(r, p, t) ==> Eligible(q, p, t)
    ensures Joined(q)
  {
    assert forall t :: SubscribersOf(q, t) == SubscribersOf(r, t);
    hide SubscribersOf, Eligible;
  }

  /** Nobody has left and no track has gone. */
  lemma JoinedMore(r: Room, q: Room)
    requires Joined(r) && q.byTrack == r.byTrack
    requires forall p :: p in r.participants ==> p in q.participants
    requires forall t :: t in r.tracks ==> t in q.tracks && q.tracks[t].publisher == r.tracks[t].publisher
    ensures Joined(q)
  {
    forall p, t | p in SubscribersOf(r, t) && Eligible(r, p, t) ensures Eligible(q, p, t) {
    }
    hide Joined, Eligible, SubscribersOf;
    JoinedFrame(r, q);
  }

  lemma SubscribedIs(r: Room)
    requires Mirrored(r)
    ensures forall p :: p in r.participants ==> r.participants[p].subscribed == TracksOf(r, p)
  {
  }

  /** Status and participant revision do not matter to the rest. */
  lemma StatusFrame(r: Room, q: Room)
    requires Inv(r) && q == r.(status := q.status, participantRevision := q.participantRevision,
             revisions := q.revisions)
    requires Numbered(q) && EmptyWhenClosed(q)
    ensures Inv(q)
  {
    SubscribedIs(r);
    hide Numbered, EmptyWhenClosed, Mirrored, Joined, TracksOf, SubscribersOf;
    MirroredFrame(r, q);
    JoinedMore(r, q);
    assert forall p :: PublishedBy(q, p) == PublishedBy(r, p);
  }

  lemma EnteredInv(r: Room, p: string, bound: bool)
    requires Inv(r) && CanJoin(r, p)
    ensures Inv(r.(participants := r.participants[p := Member({}, {}, bound)]))
  {
    Stranger(r, p);
    SubscribedIs(r);
    var a := r.(participants := r.participants[p := Member({}, {}, bound)]);
    hide Numbered, Mirrored, Joined, TracksOf, SubscribersOf;
    NumberedFrame(r, a);
    MirroredFrame(r, a);
    JoinedMore(r, a);
    assert forall m :: PublishedBy(a, m) == PublishedBy(r, m);
  }

  lemma UpdateStatusInv(r: Room)
    requires Inv(r)
    ensures Inv(NextRevision(UpdateStatus(r)))
  {
    var q := NextRevision(UpdateStatus(r));
    hide Mirrored, Joined, OwnedTracks, Numbered;
    NumberedFrame(r, UpdateStatus(r));
    RevisionNumbered(UpdateStatus(r));
    StatusFrame(r, q);
  }

  lemma JoinInv(r: Room, p: string, bound: bool, order: seq<string>, refused: set<(string, string)>)
    requires Inv(r)
    ensures Inv(Join(r, p, bound, order, refused).0)
  {
    hide Inv, SubscribeTracks, SameBut, UpdateStatus, NextRevision;
    if CanJoin(r, p) {
      EnteredInv(r, p, bound);
      var a := r.(participants := r.participants[p := Member({}, {}, bound)]);
      SubscribeTracksInv(a, p, order, refused);
      UpdateStatusInv(a);
      UpdateStatusInv(SubscribeTracks(a, p, order, refused));
    }
  }

  // ---- publishing ----

  lemma AddTrackOwned(r: Room, p: string, t: string)
    requires OwnedTracks(r) && t != "" && p in r.participants && t !in r.tracks
    ensures OwnedTracks(AddTrack(r, p, t))
  {
    var a := AddTrack(r, p, t);
    forall m ensures PublishedBy(a, m) == PublishedBy(r, m) + if m == p then {t} else {} {
    }
  }

  lemma PublishedInv(r: Room, p: string, t: string)
    requires Inv(r) && t != "" && r.status != Closed && p in r.participants && t !in r.tracks
    ensures Inv(Announce(AddTrack(r, p, t), t, true))
  {
    SubscribedIs(r);
    var a := AddTrack(r, p, t);
    hide Numbered, Mirrored, Joined, OwnedTracks, TracksOf, SubscribersOf;
    NewTrackNumbered(r, a, t, p);
    AnnounceNumbered(a, t, true);
    AddTrackOwned(r, p, t);
    var b := Announce(a, t, true);
    MirroredFrame(r, b);
    JoinedMore(r, b);
    AnnounceOwned(a, t);
  }

  lemma AnnounceOwned(a: Room, t: string)
    requires OwnedTracks(a) && t in a.tracks
    ensures OwnedTracks(Announce(a, t, true))
  {
    assert forall m :: PublishedBy(Announce(a, t, true), m) == PublishedBy(a, m);
  }

  lemma NewTrackNumbered(r: Room, a: Room, t: string, p: string)
    requires Numbered(r) && t !in r.tracks
    requires a.nextPublication == r.nextPublication + 1 && a.tracks == r.tracks[t := Track(p, r.nextPublication + 1)]
    requires a.trackRevision == r.trackRevision && a.participantRevision == r.participantRevision
    requires a.announced == r.announced && a.revisions == r.revisions
    ensures Numbered(a)
    ensures forall i :: 0 <= i < |a.announced| ==> a.announced[i].publication != a.tracks[t].publication
  {
  }

  lemma PublishInv(r: Room, p: string, t: string, ready: bool, order: seq<string>, refused: set<(string, string)>)
    requires Inv(r)
    ensures Inv(Publish(r, p, t, ready, order, refused).0)
  {
    hide Inv, SubscribeMembers, SameBut;
    if CanPublish(r, p, t, ready) {
      PublishedInv(r, p, t);
      SubscribeMembersInv(Announce(AddTrack(r, p, t), t, true), order, t, refused);
    }
  }

  // ---- unpublishing ----

  lemma InvIsInvBut(r: Room, p: string)
    requires Inv(r)
    ensures InvBut(r, p)
  {
    hide Mirrored, Joined, Numbered, EmptyWhenClosed, PublishedBy;
  }

  lemma ListsAll(order: seq<string>, s: set<string>)
    requires Lists(order, s)
    ensures forall x :: x in s ==> x in order
  {
  }

  lemma UnpublishedOwned(r: Room, w: Room, t: string)
    requires OwnedTracks(r) && t in r.tracks && OwnedBut(w, r.tracks[t].publisher) && w.tracks == r.tracks - {t}
    requires forall m :: m in r.participants ==>
             m in w.participants && w.participants[m].published == r.participants[m].published
    ensures r.tracks[t].publisher in w.participants && OwnedTracks(Unpublished(w, r.tracks[t].publisher, t))
  {
    var p := r.tracks[t].publisher;
    var q := Unpublished(w, p, t);
    assert PublishedBy(w, p) == PublishedBy(r, p) - {t};
    assert forall m :: PublishedBy(q, m) == PublishedBy(w, m);
    hide PublishedBy;
  }

  lemma WithdrawnFacts(r: Room, w: Room, t: string)
    requires Withdrawn(r, w, t)
    ensures w.tracks == r.tracks - {t}
    ensures forall m :: m in r.participants ==>
            m in w.participants && w.participants[m].published == r.participants[m].published
  {
    hide SubscribersOf;
  }

  lemma UnpublishedClosed(w: Room, p: string, t: string)
    requires EmptyWhenClosed(w)
    ensures EmptyWhenClosed(Unpublished(w, p, t))
  {
  }

  /** Once the publisher has forgotten the track too, everything is in order again. */
  lemma UnpublishedInv(r: Room, w: Room, t: string)
    requires Inv(r) && t in r.tracks && InvBut(w, r.tracks[t].publisher) && Withdrawn(r, w, t)
    ensures Inv(Unpublished(w, r.tracks[t].publisher, t))
  {
    hide Numbered, Mirrored, Joined, OwnedTracks, TracksOf, SubscribersOf, OwnedBut, Withdrawn, EmptyWhenClosed;
    var p := r.tracks[t].publisher;
    SubscribedIs(w);
    WithdrawnFacts(r, w, t);
    UnpublishedOwned(r, w, t);
    UnpublishedClosed(w, p, t);
    var q := Unpublished(w, p, t);
    NumberedFrame(w, q);
    MirroredFrame(w, q);
    JoinedMore(w, q);
  }

  lemma OpenWithTracks(r: Room, t: string)
    requires Inv(r) && t in r.tracks
    ensures r.status != Closed
  {
  }

  lemma UnpublishInv(r: Room, t: string, order: seq<string>)
    requires Inv(r) && Lists(order, SubscribersOf(r, t))
    ensures Inv(Unpublish(r, t, order).0)
  {
    hide Inv, Withdraw, Lists, InvBut, Withdrawn, Unpublished, SubscribersOf;
    if t != "" && t in r.tracks {
      OpenWithTracks(r, t);
      InvIsInvBut(r, r.tracks[t].publisher);
      ListsAll(order, SubscribersOf(r, t));
      WithdrawInv(r, t, order, false);
      UnpublishedInv(r, Withdraw(r, t, order), t);
    }
  }

  // ---- leaving ----

  /** While p's tracks are withdrawn: p subscribes to nothing, and the walks still fit. */
  ghost predicate Leaving(r: Room, p: string, order: seq<string>, w: Walks) {
    && InvBut(r, p) && r.status != Closed && p in r.participants
    && (forall t :: p !in SubscribersOf(r, t))
    && Lists(order, PublishedBy(r, p))
    && (forall t :: t in PublishedBy(r, p) ==> Lists(MembersOf(w, t), SubscribersOf(r, t)))
  }

  lemma RestLists(order: seq<string>, s: set<string>)
    requires order != [] && Lists(order, s)
    ensures order[0] in s && Lists(order[1..], s - {order[0]})
  {
    forall x | x in s - {order[0]} ensures x in order[1..] {
      HeadOrTail(order, x);
    }
  }

  lemma WithdrawnPublished(r: Room, q: Room, t: string)
    requires t in r.tracks && q.tracks == r.tracks - {t}
    ensures PublishedBy(q, r.tracks[t].publisher) == PublishedBy(r, r.tracks[t].publisher) - {t}
  {
  }

  lemma SameMembers(a: set<string>, b: set<string>, order: seq<string>)
    requires Lists(order, a) && forall x :: x in a <==> x in b
    ensures Lists(order, b)
  {
  }

  lemma WithdrawNext(r: Room, p: string, order: seq<string>, w: Walks)
    requires order != [] && Leaving(r, p, order, w)
    ensures order[0] in r.tracks && r.tracks[order[0]].publisher == p
    ensures var a := Withdraw(r, order[0], MembersOf(w, order[0]));
            Leaving(a.(byTrack := a.byTrack - {order[0]}), p, order[1..], w)
  {
    RestLists(order, PublishedBy(r, p));
    var t := order[0];
    ListsAll(MembersOf(w, t), SubscribersOf(r, t));
    WithdrawInv(r, t, MembersOf(w, t), true);
    var a := Withdraw(r, t, MembersOf(w, t));
    var q := a.(byTrack := a.byTrack - {t});
    hide InvBut, Withdraw, MembersOf, SubscribersOf, Lists;
    WithdrawnPublished(r, q, t);
    hide PublishedBy;
    forall s | s in PublishedBy(q, p) ensures Lists(MembersOf(w, s), SubscribersOf(q, s)) {
      SameMembers(SubscribersOf(r, s), SubscribersOf(q, s), MembersOf(w, s));
    }
    assert p in q.participants.Keys by {
      assert p in r.participants.Keys;
    }
  }

  /** After all withdrawals p owns no track and subscribes to none. */
  ghost predicate Left(r: Room, p: string) {
    InvBut(r, p) && r.status != Closed && p in r.participants && (forall t :: p !in SubscribersOf(r, t)) &&
        PublishedBy(r, p) == {}
  }

  lemma {:induction false} WithdrawAllLeft(r: Room, p: string, order: seq<string>, w: Walks)
    requires Leaving(r, p, order, w)
    ensures Left(WithdrawAll(r, order, w), p)
    decreases |order|
  {
    if order == [] {
      hide InvBut, SubscribersOf, MembersOf;
      assert forall x :: x !in PublishedBy(r, p);
    } else {
      hide Leaving, Left, Withdraw;
      WithdrawNext(r, p, order, w);
      var a := Withdraw(r, order[0], MembersOf(w, order[0]));
      WithdrawAllLeft(a.(byTrack := a.byTrack - {order[0]}), p, order[1..], w);
    }
  }

  lemma GoneOwned(r: Room, p: string)
    requires OwnedBut(r, p) && PublishedBy(r, p) == {}
    ensures OwnedTracks(r.(participants := r.participants - {p}))
  {
    var q := r.(participants := r.participants - {p});
    forall t | t in q.tracks ensures t != "" && q.tracks[t].publisher in q.participants {
      assert t !in PublishedBy(r, p);
    }
    assert forall m :: PublishedBy(q, m) == PublishedBy(r, m);
  }

  lemma GoneJoined(r: Room, p: string)
    requires Joined(r) && forall t :: p !in SubscribersOf(r, t)
    ensures Joined(r.(participants := r.participants - {p}))
  {
    var q := r.(participants := r.participants - {p});
    assert forall t :: SubscribersOf(q, t) == SubscribersOf(r, t);
    hide SubscribersOf;
    forall m, t | m in SubscribersOf(q, t) ensures Eligible(q, m, t) {
      assert Eligible(r, m, t);
    }
  }

  lemma GoneInv(r: Room, p: string)
    requires Left(r, p)
    ensures Inv(r.(participants := r.participants - {p}))
  {
    hide Numbered, Mirrored, Joined, OwnedBut, OwnedTracks, SubscribersOf, TracksOf, PublishedBy;
    var q := r.(participants := r.participants - {p});
    SubscribedIs(r);
    NumberedFrame(r, q);
    MirroredFrame(r, q);
    GoneJoined(r, p);
    GoneOwned(r, p);
  }

  lemma UnsubscribedAll(r: Room, q: Room, p: string, order: seq<string>)
    requires Mirrored(r) && Lists(order, TracksOf(r, p))
    requires forall s :: SubscribersOf(q, s) == if s in order then SubscribersOf(r, s) - {p} else SubscribersOf(r, s)
    ensures forall s :: p !in SubscribersOf(q, s)
  {
    forall s ensures p !in SubscribersOf(q, s) {
      if s !in order {
        assert s !in TracksOf(r, p);
        assert p in SubscribersOf(r, s) <==> s in TracksOf(r, p);
      }
    }
  }

  lemma LeavingStarts(r: Room, p: string, w: Walks)
    requires Inv(r) && p in r.participants && WalksRight(r, LeaveRoom(p, w))
    ensures Leaving(UnsubscribeTracks(r, p, w.subscriptions), p, w.tracks, w)
  {
    var q := UnsubscribeTracks(r, p, w.subscriptions);
    UnsubscribeTracksInv(r, p, w.subscriptions);
    UnsubscribedAll(r, q, p, w.subscriptions);
    InvIsInvBut(q, p);
    MembersKept(r, q);
    hide UnsubscribeTracks, InvBut, Mirrored, OwnedTracks, Numbered, MembersOf;
    assert PublishedBy(q, p) == PublishedBy(r, p);
    assert r.status != Closed;
    forall t | t in PublishedBy(q, p) ensures Lists(MembersOf(w, t), SubscribersOf(q, t)) {
      NotOwnSubscriber(r, p, t);
      assert SubscribersOf(q, t) == SubscribersOf(r, t);
    }
  }

  lemma NotOwnSubscriber(r: Room, p: string, t: string)
    requires Joined(r) && t in PublishedBy(r, p)
    ensures p !in SubscribersOf(r, t)
  {
    assert p in SubscribersOf(r, t) ==> Eligible(r, p, t);
  }

  lemma LeaveInv(r: Room, p: string, w: Walks)
    requires Inv(r) && WalksRight(r, LeaveRoom(p, w))
    ensures Inv(Leave(r, p, w).0)
  {
    hide Inv, UnsubscribeTracks, WithdrawAll, Leaving, Left, WalksRight, UpdateStatus, NextRevision;
    if p in r.participants {
      LeavingStarts(r, p, w);
      var a := UnsubscribeTracks(r, p, w.subscriptions);
      WithdrawAllLeft(a, p, w.tracks, w);
      var b := WithdrawAll(a, w.tracks, w);
      GoneInv(b, p);
      StatusRevision(b.(participants := b.participants - {p}));
    }
  }

  lemma StatusRevision(r: Room)
    requires Inv(r)
    ensures Inv(UpdateStatus(NextRevision(r)))
  {
    UpdateStatusInv(r);
    hide Inv;
    assert UpdateStatus(NextRevision(r)) == NextRevision(UpdateStatus(r));
  }

  // ---- the other commands, and runs ----

  lemma CloseInv(r: Room, order: seq<string>)
    requires Inv(r)
    ensures Inv(Close(r, order))
  {
    if r.status != Closed {
      AnnounceAllNumbered(r, order);
      FewerTracksNumbered(AnnounceAll(r, order), Close(r, order));
      hide Numbered, AnnounceAll;
    }
  }

  lemma TouchInv(r: Room, p: string)
    requires Inv(r)
    ensures Inv(Touch(r, p))
  {
    if p in r.participants {
      hide Mirrored, Joined, OwnedTracks, Numbered;
      RevisionNumbered(r);
      StatusFrame(r, NextRevision(r));
    }
  }

  lemma BindInv(r: Room, p: string, bound: bool)
    requires Inv(r)
    ensures Inv(Bind(r, p, bound))
  {
    if p in r.participants {
      SubscribedIs(r);
      var q := Bind(r, p, bound);
      assert forall m :: PublishedBy(q, m) == PublishedBy(r, m);
      hide Mirrored, Joined, Numbered, TracksOf, SubscribersOf, PublishedBy;
      NumberedFrame(r, q);
      MirroredFrame(r, q);
      JoinedMore(r, q);
    }
  }

  lemma ApplyInv(r: Room, c: Command)
    requires Inv(r) && WalksRight(r, c)
    ensures Inv(Apply(r, c))
  {
    hide Inv, Join, Leave, Publish, Unpublish, Subscribe, Unsubscribe, Close, Touch, Bind, Lists;
    match c
    case JoinRoom(p, bound, order, refused) => JoinInv(r, p, bound, order, refused);
    case LeaveRoom(p, w) => LeaveInv(r, p, w);
    case PublishTrack(p, t, ready, order, refused) => PublishInv(r, p, t, ready, order, refused);
    case UnpublishTrack(t, order) => UnpublishInv(r, t, order);
    case SubscribeTrack(p, t, refused) => SubscribeInv(r, p, t, refused);
    case UnsubscribeTrack(p, t) => UnsubscribeInv(r, p, t);
    case CloseRoom(order) => CloseInv(r, order);
    case TouchParticipant(p) => TouchInv(r, p);
    case BindMedia(p, bound) => BindInv(r, p, bound);
  }

  function Run(r: Room, commands: seq<Command>): Room
    decreases |commands|
  {
    if commands == [] then r else Run(Apply(r, commands[0]), commands[1..])
  }

  predicate RightRun(r: Room, commands: seq<Command>)
    decreases |commands|
  {
    commands == [] || (WalksRight(r, commands[0]) && RightRun(Apply(r, commands[0]), commands[1..]))
  }

  lemma {:induction false} RunInv(r: Room, commands: seq<Command>)
    requires Inv(r) && RightRun(r, commands)
    ensures Inv(Run(r, commands))
    decreases |commands|
  {
    hide Inv, WalksRight, Apply;
    if commands != [] {
      ApplyInv(r, commands[0]);
      RunInv(Apply(r, commands[0]), commands[1..]);
    }
  }

  /**
   After every sequence of commands the two subscription indexes are inverse relations and
   the participants' own sets mirror them; every subscription joins a present participant
   to a published track it does not own; a closed room is empty; revisions strictly
   increase and no publication number repeats.
   */
  lemma RoomAlwaysConsistent(maxParticipants: nat, autoSubscribe: bool, commands: seq<Command>)
    requires RightRun(NewRoom(maxParticipants, autoSubscribe), commands)
    ensures Inv(Run(NewRoom(maxParticipants, autoSubscribe), commands))
  {
    var r := NewRoom(maxParticipants, autoSubscribe);
    assert Inv(r);
    hide Inv;
    RunInv(r, commands);
  }

  /** A closed room stays closed, whatever follows. */
  lemma ClosedAbsorbs(r: Room, c: Command)
    requires Inv(r) && r.status == Closed
    ensures Apply(r, c).status == Closed && Apply(r, c).trackRevision == r.trackRevision
  {
    hide Mirrored, Joined, OwnedTracks, Numbered;
  }

  lemma {:induction false} ClosedForever(r: Room, commands: seq<Command>)
    requires Inv(r) && r.status == Closed && RightRun(r, commands)
    ensures Run(r, commands).status == Closed && Run(r, commands).participants == map[] &&
            Run(r, commands).tracks == map[]
    decreases |commands|
  {
    hide Mirrored, Joined, OwnedTracks, Numbered, WalksRight, Apply;
    if commands != [] {
      ClosedAbsorbs(r, commands[0]);
      ApplyInv(r, commands[0]);
      ClosedForever(Apply(r, commands[0]), commands[1..]);
    }
  }
}
