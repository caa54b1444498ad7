/** With automatic subscription and nothing in its way, everybody receives everybody else. */
module RoomMesh {
  import opened RoomModel
  import opened RoomSafety
  import opened RoomRuns

  /** No media is bound, so no endpoint can refuse. */
  predicate Unbound(r: Room) {
    forall p :: p in r.participants ==> !r.participants[p].bound
  }

  /** Every subscription the room allows exists. */
  ghost predicate Full(r: Room) {
    forall p, t :: Eligible(r, p, t) ==> p in SubscribersOf(r, t)
  }

  ghost predicate Mesh(r: Room) {
    Inv(r) && r.autoSubscribe && Unbound(r) && Full(r)
  }

  /** The runs covered: no media bindings and nobody unsubscribes. */
  predicate Plain(c: Command) {
    match c
    case JoinRoom(_, bound, _, _) => !bound
    case UnsubscribeTrack(_, _) => false
    case BindMedia(_, bound) => !bound
    case _ => true
  }

  lemma UnboundSame(r: Room, q: Room)
    requires Unbound(r) && SameBut(r, q)
    ensures Unbound(q)
  {
    MembersKept(r, q);
  }

  /** Without bindings an allowed subscription is made. */
  lemma SubscribeMakes(r: Room, p: string, t: string, refused: set<(string, string)>)
    requires Inv(r) && Unbound(r) && Eligible(r, p, t)
    ensures p in SubscribersOf(Subscribe(r, p, t, refused).0, t)
  {
    hide Mirrored, Joined, Numbered, EmptyWhenClosed;
    assert r.tracks[t].publisher in r.participants;
  }

  lemma SubscribeKeeps(r: Room, p: string, t: string, refused: set<(string, string)>, m: string, s: string)
    requires m in SubscribersOf(r, s)
    ensures m in SubscribersOf(Subscribe(r, p, t, refused).0, s)
  {
    SubscribeRelation(r, p, t, refused);
    hide Subscribe, SubscribersOf;
  }

  lemma {:induction false} SubscribeTracksKeeps(r: Room, p: string, order: seq<string>, refused: set<(string, string)>,
      m: string, s: string)
    requires m in SubscribersOf(r, s)
    ensures m in SubscribersOf(SubscribeTracks(r, p, order, refused), s)
    decreases |order|
  {
    hide Subscribe, SubscribersOf;
    if order != [] {
      SubscribeKeeps(r, p, order[0], refused, m, s);
      SubscribeTracksKeeps(Subscribe(r, p, order[0], refused).0, p, order[1..], refused, m, s);
    }
  }

  lemma {:induction false} SubscribeTracksMakes(r: Room, p: string, order: seq<string>, refused: set<(string, string)>,
      t: string)
    requires Inv(r) && Unbound(r) && t in order && Eligible(r, p, t)
    ensures p in SubscribersOf(SubscribeTracks(r, p, order, refused), t)
    decreases |order|
  {
    hide Inv, Subscribe, SubscribersOf, Eligible, Unbound, SameBut;
    HeadOrTail(order, t);
    var a := Subscribe(r, p, order[0], refused).0;
    if t == order[0] {
      SubscribeMakes(r, p, t, refused);
      SubscribeTracksKeeps(a, p, order[1..], refused, p, t);
    } else {
      SubscribeInv(r, p, order[0], refused);
      SubscribeSame(r, p, order[0], refused);
      UnboundSame(r, a);
      EligibleSame(r, a, p, t);
      SubscribeTracksMakes(a, p, order[1..], refused, t);
    }
  }

  lemma {:induction false} SubscribeMembersKeeps(r: Room, order: seq<string>, t: string, refused: set<(string, string)>,
      m: string, s: string)
    requires m in SubscribersOf(r, s)
    ensures m in SubscribersOf(SubscribeMembers(r, order, t, refused), s)
    decreases |order|
  {
    hide Subscribe, SubscribersOf;
    if order != [] {
      SubscribeKeeps(r, order[0], t, refused, m, s);
      SubscribeMembersKeeps(Subscribe(r, order[0], t, refused).0, order[1..], t, refused, m, s);
    }
  }

  lemma {:induction false} SubscribeMembersMakes(r: Room, order: seq<string>, t: string, refused: set<(string, string)>,
      p: string)
    requires Inv(r) && Unbound(r) && p in order && Eligible(r, p, t)
    ensures p in SubscribersOf(SubscribeMembers(r, order, t, refused), t)
    decreases |order|
  {
    hide Inv, Subscribe, SubscribersOf, Eligible, Unbound, SameBut;
    HeadOrTail(order, p);
    var a := Subscribe(r, order[0], t, refused).0;
    if p == order[0] {
      SubscribeMakes(r, p, t, refused);
      SubscribeMembersKeeps(a, order[1..], t, refused, p, t);
    } else {
      SubscribeInv(r, order[0], t, refused);
      SubscribeSame(r, order[0], t, refused);
      UnboundSame(r, a);
      EligibleSame(r, a, p, t);
      SubscribeMembersMakes(a, order[1..], t, refused, p);
    }
  }

  // ---- each command ----

  lemma FullFrame(r: Room, q: Room)
    requires Full(r) && q.byTrack == r.byTrack && q.participants.Keys == r.participants.Keys && q.tracks == r.tracks
    ensures Full(q)
  {
    assert forall t :: SubscribersOf(q, t) == SubscribersOf(r, t);
    hide SubscribersOf;
    forall p, t | Eligible(q, p, t) ensures p in SubscribersOf(q, t) {
      assert p in r.participants.Keys;
      assert Eligible(r, p, t);
    }
  }

  /** A newcomer is subscribed to everything; everybody else keeps what they had. */
  lemma JoinFullAt(r: Room, a: Room, p: string, order: seq<string>, refused: set<(string, string)>, m: string,
      t: string)
    requires Full(r) && Inv(a) && Unbound(a) && a.byTrack == r.byTrack && a.tracks == r.tracks &&
             Lists(order, OthersTracks(r, p))
    requires a.participants.Keys == r.participants.Keys + {p} && Eligible(a, m, t)
    ensures m in SubscribersOf(SubscribeTracks(a, p, order, refused), t)
  {
    assert SubscribersOf(a, t) == SubscribersOf(r, t);
    assert m in a.participants.Keys;
    hide Inv, SubscribeTracks, SubscribersOf, Unbound;
    if m == p {
      assert t in OthersTracks(r, p);
      SubscribeTracksMakes(a, p, order, refused, t);
    } else {
      assert Eligible(r, m, t);
      SubscribeTracksKeeps(a, p, order, refused, m, t);
    }
  }

  lemma JoinFull(r: Room, p: string, order: seq<string>, refused: set<(string, string)>)
    requires Mesh(r) && CanJoin(r, p) && Lists(order, OthersTracks(r, p))
    ensures var a := r.(participants := r.participants[p := Member({}, {}, false)]);
            var b := SubscribeTracks(a, p, order, refused);
            Full(b) && Unbound(b)
  {
    var a := r.(participants := r.participants[p := Member({}, {}, false)]);
    assert Unbound(a) && a.participants.Keys == r.participants.Keys + {p};
    hide Inv, SubscribeTracks, SubscribersOf, Unbound, SameBut, Eligible, Lists;
    EnteredInv(r, p, false);
    SubscribeTracksInv(a, p, order, refused);
    var b := SubscribeTracks(a, p, order, refused);
    UnboundSame(a, b);
    forall m, t | Eligible(b, m, t) ensures m in SubscribersOf(b, t) {
      EligibleSame(a, b, m, t);
      JoinFullAt(r, a, p, order, refused, m, t);
    }
  }

  lemma JoinMesh(r: Room, p: string, order: seq<string>, refused: set<(string, string)>)
    requires Mesh(r) && Lists(order, OthersTracks(r, p))
    ensures Mesh(Join(r, p, false, order, refused).0)
  {
    JoinInv(r, p, false, order, refused);
    hide Inv, SubscribeTracks, Lists, Full;
    if CanJoin(r, p) {
      JoinFull(r, p, order, refused);
      EnteredAuto(r, p, order, refused);
      var a := r.(participants := r.participants[p := Member({}, {}, false)]);
      FullFrame(SubscribeTracks(a, p, order, refused), Join(r, p, false, order, refused).0);
    }
  }

  lemma EnteredAuto(r: Room, p: string, order: seq<string>, refused: set<(string, string)>)
    requires Inv(r) && CanJoin(r, p)
    ensures var a := r.(participants := r.participants[p := Member({}, {}, false)]);
            SubscribeTracks(a, p, order, refused).autoSubscribe == r.autoSubscribe
  {
    EnteredInv(r, p, false);
    hide Inv;
    SubscribeTracksInv(r.(participants := r.participants[p := Member({}, {}, false)]), p, order, refused);
  }

  /** Everybody else is subscribed to a new track, and nothing else changes. */
  lemma PublishFullAt(r: Room, b: Room, p: string, t: string, order: seq<string>, refused: set<(string, string)>,
      m: string, s: string)
    requires Full(r) && Inv(b) && Unbound(b) && b.byTrack == r.byTrack && p in r.participants && t !in r.tracks
    requires b.tracks == r.tracks[t := Track(p, r.nextPublication + 1)] && b.participants.Keys == r.participants.Keys
    requires Lists(order, r.participants.Keys - {p}) && Eligible(b, m, s)
    ensures m in SubscribersOf(SubscribeMembers(b, order, t, refused), s)
  {
    assert SubscribersOf(b, s) == SubscribersOf(r, s);
    assert m in b.participants.Keys;
    hide Inv, SubscribeMembers, SubscribersOf, Unbound;
    if s == t {
      assert m in r.participants.Keys - {p};
      SubscribeMembersMakes(b, order, t, refused, m);
    } else {
      assert Eligible(r, m, s);
      SubscribeMembersKeeps(b, order, t, refused, m, s);
    }
  }

  lemma PublishFull(r: Room, p: string, t: string, ready: bool, order: seq<string>, refused: set<(string, string)>)
    requires Mesh(r) && Lists(order, r.participants.Keys - {p}) && CanPublish(r, p, t, ready)
    ensures var q := SubscribeMembers(Announce(AddTrack(r, p, t), t, true), order, t, refused);
            Full(q) && Unbound(q) && q.autoSubscribe
  {
    var b := Announce(AddTrack(r, p, t), t, true);
    assert Unbound(b) && b.participants.Keys == r.participants.Keys;
    assert b.tracks == r.tracks[t := Track(p, r.nextPublication + 1)] && b.byTrack == r.byTrack;
    hide Inv, SubscribeMembers, SubscribersOf, Unbound, Eligible, Lists;
    PublishedInv(r, p, t);
    SubscribeMembersInv(b, order, t, refused);
    var q := SubscribeMembers(b, order, t, refused);
    UnboundSame(b, q);
    hide AddTrack;
    forall m, s | Eligible(q, m, s) ensures m in SubscribersOf(q, s) {
      EligibleSame(b, q, m, s);
      PublishFullAt(r, b, p, t, order, refused, m, s);
    }
  }

  lemma PublishMesh(r: Room, p: string, t: string, ready: bool, order: seq<string>, refused: set<(string, string)>)
    requires Mesh(r) && Lists(order, r.participants.Keys - {p})
    ensures Mesh(Publish(r, p, t, ready, order, refused).0)
  {
    PublishInv(r, p, t, ready, order, refused);
    hide Inv, SubscribeMembers, Full, Unbound, Lists;
    if CanPublish(r, p, t, ready) {
      PublishFull(r, p, t, ready, order, refused);
    }
  }

  // ---- tracks and participants that go ----

  /** Of the tracks that are left, nobody but p has lost one. */
  ghost predicate Kept(r: Room, q: Room, p: string) {
    && (forall s :: s in q.tracks ==> s in r.tracks && q.tracks[s] == r.tracks[s])
    && (forall m, s :: m != p && s in q.tracks && m in SubscribersOf(r, s) ==> m in SubscribersOf(q, s))
    && (forall m :: m in q.participants ==> m in r.participants && q.participants[m].bound == r.participants[m].bound)
    && q.autoSubscribe == r.autoSubscribe
  }

  lemma KeptTransitive(a: Room, b: Room, c: Room, p: string)
    requires Kept(a, b, p) && Kept(b, c, p)
    ensures Kept(a, c, p)
  {
    hide SubscribersOf;
  }

  lemma KeptFull(r: Room, q: Room, p: string)
    requires Full(r) && Unbound(r) && Kept(r, q, p) && p !in q.participants
    ensures Full(q) && Unbound(q)
  {
    hide SubscribersOf;
    forall m, s | Eligible(q, m, s) ensures m in SubscribersOf(q, s) {
      assert Eligible(r, m, s);
    }
  }

  lemma WithdrawnKept(r: Room, q: Room, t: string, p: string)
    requires Withdrawn(r, q, t)
    ensures Kept(r, q, p)
  {
    hide SubscribersOf;
    forall m | m in q.participants ensures m in r.participants {
      assert m in q.participants.Keys;
    }
  }

  lemma {:induction false} WithdrawAllKept(r: Room, p: string, order: seq<string>, w: Walks)
    requires Leaving(r, p, order, w)
    ensures Kept(r, WithdrawAll(r, order, w), p)
    decreases |order|
  {
    if order == [] {
      hide SubscribersOf;
    } else {
      WithdrawNext(r, p, order, w);
      var t := order[0];
      var a := Withdraw(r, t, MembersOf(w, t));
      var q := a.(byTrack := a.byTrack - {t});
      assert Withdrawn(r, q, t) by {
        RestLists(order, PublishedBy(r, p));
        ListsAll(MembersOf(w, t), SubscribersOf(r, t));
        WithdrawInv(r, t, MembersOf(w, t), true);
      }
      hide Leaving, Withdraw, Kept, Withdrawn;
      WithdrawnKept(r, q, t, p);
      WithdrawAllKept(q, p, order[1..], w);
      KeptTransitive(r, q, WithdrawAll(q, order[1..], w), p);
    }
  }

  lemma UnsubscribeKept(r: Room, p: string, order: seq<string>)
    requires Inv(r)
    ensures Kept(r, UnsubscribeTracks(r, p, order), p)
  {
    var q := UnsubscribeTracks(r, p, order);
    UnsubscribeTracksInv(r, p, order);
    MembersKept(r, q);
    hide Inv, UnsubscribeTracks, SubscribersOf;
  }

  lemma LeaveKept(r: Room, p: string, w: Walks)
    requires Inv(r) && p in r.participants && WalksRight(r, LeaveRoom(p, w))
    ensures Kept(r, WithdrawAll(UnsubscribeTracks(r, p, w.subscriptions), w.tracks, w), p)
  {
    hide Inv, UnsubscribeTracks, WithdrawAll, Leaving, Kept, WalksRight;
    var a := UnsubscribeTracks(r, p, w.subscriptions);
    UnsubscribeKept(r, p, w.subscriptions);
    LeavingStarts(r, p, w);
    WithdrawAllKept(a, p, w.tracks, w);
    KeptTransitive(r, a, WithdrawAll(a, w.tracks, w), p);
  }

  /** Leaving ends with the participant's own entry. */
  lemma LeaveEnds(r: Room, p: string, w: Walks)
    requires p in r.participants
    ensures var b, q := WithdrawAll(UnsubscribeTracks(r, p, w.subscriptions), w.tracks, w), Leave(r, p, w).0;
            && q.tracks == b.tracks && q.byTrack == b.byTrack && q.participants == b.participants - {p} &&
                q.autoSubscribe == b.autoSubscribe
  {
    hide UnsubscribeTracks, WithdrawAll, UpdateStatus, NextRevision;
    var b := WithdrawAll(UnsubscribeTracks(r, p, w.subscriptions), w.tracks, w);
    StatusKeeps(b.(participants := b.participants - {p}));
  }

  lemma StatusKeeps(r: Room)
    ensures var q := UpdateStatus(NextRevision(r));
            q.tracks == r.tracks && q.byTrack == r.byTrack && q.participants == r.participants &&
                q.autoSubscribe == r.autoSubscribe
  {
  }

  lemma LeaveMesh(r: Room, p: string, w: Walks)
    requires Mesh(r) && WalksRight(r, LeaveRoom(p, w))
    ensures Mesh(Leave(r, p, w).0)
  {
    LeaveInv(r, p, w);
    if p in r.participants {
      hide Inv, UnsubscribeTracks, WithdrawAll, WalksRight, Full, Unbound, Kept, Leave;
      LeaveKept(r, p, w);
      LeaveEnds(r, p, w);
      var b, q := WithdrawAll(UnsubscribeTracks(r, p, w.subscriptions), w.tracks, w), Leave(r, p, w).0;
      KeptShrink(r, b, q, p);
      KeptFull(r, q, p);
    } else {
      hide Inv, Full, Unbound;
    }
  }

  lemma KeptShrink(r: Room, b: Room, q: Room, p: string)
    requires Kept(r, b, p) && q.tracks == b.tracks && q.byTrack == b.byTrack && q.participants == b.participants - {p}
    requires q.autoSubscribe == b.autoSubscribe
    ensures Kept(r, q, p) && p !in q.participants && q.autoSubscribe == r.autoSubscribe
  {
    assert forall s :: SubscribersOf(q, s) == SubscribersOf(b, s);
    hide SubscribersOf;
  }

  lemma UnpublishFull(r: Room, w: Room, t: string)
    requires Full(r) && Unbound(r) && Withdrawn(r, w, t)
    ensures Full(w) && Unbound(w)
  {
    hide SubscribersOf;
    forall m | m in w.participants ensures m in r.participants && !w.participants[m].bound {
      assert m in w.participants.Keys;
    }
    forall m, s | Eligible(w, m, s) ensures m in SubscribersOf(w, s) {
      assert Eligible(r, m, s);
    }
  }

  lemma ForgottenFull(w: Room, p: string, t: string)
    requires Full(w) && Unbound(w)
    ensures Full(Unpublished(w, p, t)) && Unbound(Unpublished(w, p, t)) &&
            Unpublished(w, p, t).autoSubscribe == w.autoSubscribe
  {
    assert Unpublished(w, p, t).participants.Keys == w.participants.Keys;
    hide Full;
    FullFrame(w, Unpublished(w, p, t));
  }

  lemma UnpublishMesh(r: Room, t: string, order: seq<string>)
    requires Mesh(r) && Lists(order, SubscribersOf(r, t))
    ensures Mesh(Unpublish(r, t, order).0)
  {
    UnpublishInv(r, t, order);
    if t != "" && t in r.tracks {
      OpenWithTracks(r, t);
      InvIsInvBut(r, r.tracks[t].publisher);
      ListsAll(order, SubscribersOf(r, t));
      hide Inv, InvBut, Withdraw, Lists, Full, Unbound, SubscribersOf, Unpublished;
      WithdrawInv(r, t, order, false);
      var w := Withdraw(r, t, order);
      UnpublishFull(r, w, t);
      ForgottenFull(w, r.tracks[t].publisher, t);
    }
  }

  // ---- every run ----

  lemma SubscribeMesh(r: Room, p: string, t: string, refused: set<(string, string)>)
    requires Mesh(r)
    ensures Mesh(Subscribe(r, p, t, refused).0)
  {
    var q := Subscribe(r, p, t, refused).0;
    SubscribeInv(r, p, t, refused);
    SubscribeSame(r, p, t, refused);
    UnboundSame(r, q);
    hide Inv, Subscribe, SubscribersOf, Unbound, Eligible;
    forall m, s | Eligible(q, m, s) ensures m in SubscribersOf(q, s) {
      EligibleSame(r, q, m, s);
      SubscribeKeeps(r, p, t, refused, m, s);
    }
  }

  lemma QuietMesh(r: Room, q: Room)
    requires Mesh(r) && Inv(q) && q.byTrack == r.byTrack && q.tracks == r.tracks && q.autoSubscribe == r.autoSubscribe
    requires q.participants.Keys == r.participants.Keys && forall m :: m in q.participants ==> !q.participants[m].bound
    ensures Mesh(q)
  {
    hide Inv, Full;
    FullFrame(r, q);
  }

  lemma CloseMesh(r: Room, order: seq<string>)
    requires Mesh(r)
    ensures Mesh(Close(r, order))
  {
    CloseInv(r, order);
    AnnounceAllAuto(r, order);
    hide Inv, AnnounceAll;
  }

  lemma {:induction false} AnnounceAllAuto(r: Room, order: seq<string>)
    ensures AnnounceAll(r, order).autoSubscribe == r.autoSubscribe
    decreases |order|
  {
    if order != [] {
      AnnounceAllAuto(if order[0] in r.tracks then Announce(r, order[0], false) else r, order[1..]);
    }
  }

  lemma TouchMesh(r: Room, p: string)
    requires Mesh(r)
    ensures Mesh(Touch(r, p))
  {
    TouchInv(r, p);
    hide Inv, Full;
    QuietMesh(r, Touch(r, p));
  }

  lemma BindMesh(r: Room, p: string)
    requires Mesh(r)
    ensures Mesh(Bind(r, p, false))
  {
    BindInv(r, p, false);
    hide Inv, Full;
    assert Bind(r, p, false).participants.Keys == r.participants.Keys;
    QuietMesh(r, Bind(r, p, false));
  }

  lemma ApplyMesh(r: Room, c: Command)
    requires Mesh(r) && WalksRight(r, c) && Plain(c)
    ensures Mesh(Apply(r, c))
  {
    hide Mesh, Join, Leave, Publish, Unpublish, Subscribe, Unsubscribe, Close, Touch, Bind, Lists;
    match c
    case JoinRoom(p, bound, order, refused) => JoinMesh(r, p, order, refused);
    case LeaveRoom(p, w) => LeaveMesh(r, p, w);
    case PublishTrack(p, t, ready, order, refused) => PublishMesh(r, p, t, ready, order, refused);
    case UnpublishTrack(t, order) => UnpublishMesh(r, t, order);
    case SubscribeTrack(p, t, refused) => SubscribeMesh(r, p, t, refused);
    case CloseRoom(order) => CloseMesh(r, order);
    case TouchParticipant(p) => TouchMesh(r, p);
    case BindMedia(p, bound) => BindMesh(r, p);
  }

  lemma {:induction false} RunMesh(r: Room, commands: seq<Command>)
    requires Mesh(r) && RightRun(r, commands) && forall i :: 0 <= i < |commands| ==> Plain(commands[i])
    ensures Mesh(Run(r, commands))
    decreases |commands|
  {
    hide Mesh, WalksRight, Apply, Plain;
    if commands != [] {
      ApplyMesh(r, commands[0]);
      RunMesh(Apply(r, commands[0]), commands[1..]);
    }
  }

  /** Then the subscriptions are exactly the full mesh. */
  lemma FullMesh(maxParticipants: nat, commands: seq<Command>)
    requires RightRun(NewRoom(maxParticipants, true), commands)
    requires forall i :: 0 <= i < |commands| ==> Plain(commands[i])
    ensures var r := Run(NewRoom(maxParticipants, true), commands);
            forall p, t :: p in SubscribersOf(r, t) <==> Eligible(r, p, t)
  {
    var r := NewRoom(maxParticipants, true);
    assert Mesh(r);
    RunMesh(r, commands);
    hide Eligible, SubscribersOf, Run;
  }
}
