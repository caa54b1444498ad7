/** What every command keeps in a room. */
module RoomSafety {
  import opened RoomModel

  /** The two indexes are inverse to each other, and the participants' own sets mirror them. */
  ghost predicate Mirrored(r: Room) {
    && (forall p, t :: p in SubscribersOf(r, t) <==> t in TracksOf(r, p))
    && (forall p :: p in r.participants ==> r.participants[p].subscribed == TracksOf(r, p))
  }

  /** Every subscription joins a present participant to a published track of somebody else. */
  ghost predicate Joined(r: Room) {
    forall p, t :: p in SubscribersOf(r, t) ==> Eligible(r, p, t)
  }

  /** Every track belongs to a present participant, who knows it. */
  ghost predicate OwnedTracks(r: Room) {
    && (forall t :: t in r.tracks ==> t != "" && r.tracks[t].publisher in r.participants)
    && (forall p :: p in r.participants ==> p != "" && r.participants[p].published == PublishedBy(r, p))
  }

  predicate EmptyWhenClosed(r: Room) {
    r.status == Closed ==>
      r.participants == map[] && r.tracks == map[] && r.byTrack == map[] && r.byParticipant == map[]
  }

  /** Announced revisions strictly increase, and no publication number is used twice. */
  predicate Numbered(r: Room) {
    && (forall i, j :: 0 <= i < j < |r.announced| ==> r.announced[i].revision < r.announced[j].revision)
    && (forall i :: 0 <= i < |r.announced| ==>
        r.announced[i].revision <= r.trackRevision && r.announced[i].publication <= r.nextPublication)
    && (forall i, j :: 0 <= i < j < |r.revisions| ==> r.revisions[i] < r.revisions[j])
    && (forall i :: 0 <= i < |r.revisions| ==> r.revisions[i] <= r.participantRevision)
    && (forall i, j :: 0 <= i < j < |r.announced| && r.announced[i].added && r.announced[j].added ==>
          r.announced[i].publication != r.announced[j].publication)
    && (forall t :: t in r.tracks ==> r.tracks[t].publication <= r.nextPublication)
    && (forall s, t :: s in r.tracks && t in r.tracks && s != t ==> r.tracks[s].publication != r.tracks[t].publication)
  }

  ghost predicate Inv(r: Room) {
    Mirrored(r) && Joined(r) && OwnedTracks(r) && EmptyWhenClosed(r) && Numbered(r)
  }

  // ---- one subscription ----

  /** The same room apart from its subscriptions. */
  predicate SameBut(r: Room, q: Room) {
    && q.tracks == r.tracks && q.status == r.status && q.nextPublication == r.nextPublication
    && q.trackRevision == r.trackRevision && q.participantRevision == r.participantRevision
    && q.announced == r.announced && q.revisions == r.revisions
    && q.maxParticipants == r.maxParticipants && q.autoSubscribe == r.autoSubscribe
    && q.participants.Keys == r.participants.Keys
    && (forall p :: p in r.participants ==>
        q.participants[p].published == r.participants[p].published &&
            q.participants[p].bound == r.participants[p].bound)
  }

  lemma SameButTransitive(a: Room, b: Room, c: Room)
    requires SameBut(a, b) && SameBut(b, c)
    ensures SameBut(a, c)
  {
    assert forall p :: p in a.participants ==> p in a.participants.Keys && p in b.participants;
  }

  lemma OwnedFrame(r: Room, q: Room)
    requires OwnedTracks(r) && SameBut(r, q)
    ensures OwnedTracks(q)
  {
    assert forall p :: p in q.participants ==> p in q.participants.Keys && p in r.participants;
    assert forall p :: p in r.participants ==> p in r.participants.Keys && p in q.participants;
    assert forall p :: PublishedBy(q, p) == PublishedBy(r, p);
  }

  lemma NumberedFrame(r: Room, q: Room)
    requires Numbered(r) && q.tracks == r.tracks && q.nextPublication == r.nextPublication &&
             q.trackRevision == r.trackRevision
    requires q.participantRevision == r.participantRevision && q.announced == r.announced && q.revisions == r.revisions
    ensures Numbered(q)
  {
  }

  lemma SubscribeSame(r: Room, p: string, t: string, refused: set<(string, string)>)
    ensures SameBut(r, Subscribe(r, p, t, refused).0)
  {
    var q := Subscribe(r, p, t, refused).0;
    assert q.participants.Keys == r.participants.Keys;
  }

  /** Who subscribes to what after a subscription. */
  lemma SubscribeRelation(r: Room, p: string, t: string, refused: set<(string, string)>)
    ensures var (q, ok) := Subscribe(r, p, t, refused);
            && (forall s :: SubscribersOf(q, s) == SubscribersOf(r, s) + if ok && s == t then {p} else {})
            && (forall m :: TracksOf(q, m) == TracksOf(r, m) + if ok && m == p then {t} else {})
            && (forall m :: m in r.participants ==>
                  && m in q.participants
                  && q.participants[m].subscribed == r.participants[m].subscribed + if ok && m == p then {t} else {})
            && (ok ==> Eligible(r, p, t))
  {
  }

  lemma EligibleSame(r: Room, q: Room, p: string, t: string)
    requires SameBut(r, q)
    ensures Eligible(q, p, t) <==> Eligible(r, p, t)
  {
    assert p in q.participants <==> p in q.participants.Keys;
    assert p in r.participants <==> p in r.participants.Keys;
  }

  lemma SubscribeMirrored(r: Room, p: string, t: string, refused: set<(string, string)>)
    requires Mirrored(r)
    ensures Mirrored(Subscribe(r, p, t, refused).0)
  {
    SubscribeRelation(r, p, t, refused);
    SubscribeSame(r, p, t, refused);
    hide Subscribe, SubscribersOf, TracksOf;
    var q := Subscribe(r, p, t, refused).0;
    forall m | m in q.participants ensures q.participants[m].subscribed == TracksOf(q, m) {
      assert m in q.participants.Keys;
    }
  }

  lemma SubscribeJoined(r: Room, p: string, t: string, refused: set<(string, string)>)
    requires Joined(r)
    ensures Joined(Subscribe(r, p, t, refused).0)
  {
    SubscribeRelation(r, p, t, refused);
    SubscribeSame(r, p, t, refused);
    hide Subscribe, SubscribersOf, TracksOf, Eligible;
    var q := Subscribe(r, p, t, refused).0;
    forall m, s | m in SubscribersOf(q, s) ensures Eligible(q, m, s) {
      EligibleSame(r, q, m, s);
    }
  }

  lemma SubscribeInv(r: Room, p: string, t: string, refused: set<(string, string)>)
    requires Inv(r)
    ensures Inv(Subscribe(r, p, t, refused).0)
  {
    hide Mirrored, Joined, OwnedTracks, Numbered;
    SubscribeMirrored(r, p, t, refused);
    SubscribeJoined(r, p, t, refused);
    SubscribeSame(r, p, t, refused);
    OwnedFrame(r, Subscribe(r, p, t, refused).0);
    NumberedFrame(r, Subscribe(r, p, t, refused).0);
  }

  // ---- one unsubscription ----

  lemma UnsubscribeSame(r: Room, p: string, t: string)
    ensures SameBut(r, Unsubscribe(r, p, t))
  {
    assert Unsubscribe(r, p, t).participants.Keys == r.participants.Keys;
  }

  lemma UnsubscribeRelation(r: Room, p: string, t: string)
    ensures var q := Unsubscribe(r, p, t);
            && (forall s :: SubscribersOf(q, s) == if s == t then SubscribersOf(r, s) - {p} else SubscribersOf(r, s))
            && (forall m :: TracksOf(q, m) == if m == p then TracksOf(r, m) - {t} else TracksOf(r, m))
            && (forall m :: m in r.participants ==>
                  && m in q.participants
                  && q.participants[m].subscribed == r.participants[m].subscribed - if m == p then {t} else {})
  {
  }

  lemma UnsubscribeMirrored(r: Room, p: string, t: string)
    requires Mirrored(r)
    ensures Mirrored(Unsubscribe(r, p, t))
  {
    UnsubscribeRelation(r, p, t);
    UnsubscribeSame(r, p, t);
    hide Unsubscribe, SubscribersOf, TracksOf;
    var q := Unsubscribe(r, p, t);
    forall m | m in q.participants ensures q.participants[m].subscribed == TracksOf(q, m) {
      assert m in q.participants.Keys;
    }
  }

  lemma UnsubscribeJoined(r: Room, p: string, t: string)
    requires Joined(r)
    ensures Joined(Unsubscribe(r, p, t))
  {
    UnsubscribeRelation(r, p, t);
    UnsubscribeSame(r, p, t);
    hide Unsubscribe, SubscribersOf, TracksOf, Eligible;
    var q := Unsubscribe(r, p, t);
    forall m, s | m in SubscribersOf(q, s) ensures Eligible(q, m, s) {
      EligibleSame(r, q, m, s);
    }
  }

  lemma UnsubscribeClosed(r: Room, p: string, t: string)
    requires EmptyWhenClosed(r)
    ensures EmptyWhenClosed(Unsubscribe(r, p, t))
  {
  }

  lemma UnsubscribeInv(r: Room, p: string, t: string)
    requires Inv(r)
    ensures Inv(Unsubscribe(r, p, t))
  {
    hide Mirrored, Joined, OwnedTracks, Numbered, EmptyWhenClosed;
    UnsubscribeMirrored(r, p, t);
    UnsubscribeJoined(r, p, t);
    UnsubscribeClosed(r, p, t);
    UnsubscribeSame(r, p, t);
    OwnedFrame(r, Unsubscribe(r, p, t));
    NumberedFrame(r, Unsubscribe(r, p, t));
  }

  // ---- walks ----

  lemma {:induction false} SubscribeTracksInv(r: Room, p: string, order: seq<string>, refused: set<(string, string)>)
    requires Inv(r)
    ensures Inv(SubscribeTracks(r, p, order, refused)) && SameBut(r, SubscribeTracks(r, p, order, refused))
    decreases |order|
  {
    hide Inv, Subscribe;
    if order != [] {
      SubscribeInv(r, p, order[0], refused);
      SubscribeSame(r, p, order[0], refused);
      var a := Subscribe(r, p, order[0], refused).0;
      SubscribeTracksInv(a, p, order[1..], refused);
      SameButTransitive(r, a, SubscribeTracks(a, p, order[1..], refused));
    }
  }

  lemma {:induction false} SubscribeMembersInv(r: Room, order: seq<string>, t: string, refused: set<(string, string)>)
    requires Inv(r)
    ensures Inv(SubscribeMembers(r, order, t, refused)) && SameBut(r, SubscribeMembers(r, order, t, refused))
    decreases |order|
  {
    hide Inv, Subscribe;
    if order != [] {
      SubscribeInv(r, order[0], t, refused);
      SubscribeSame(r, order[0], t, refused);
      var a := Subscribe(r, order[0], t, refused).0;
      SubscribeMembersInv(a, order[1..], t, refused);
      SameButTransitive(r, a, SubscribeMembers(a, order[1..], t, refused));
    }
  }

  lemma {:induction false} UnsubscribeTracksInv(r: Room, p: string, order: seq<string>)
    requires Inv(r)
    ensures var q := UnsubscribeTracks(r, p, order);
            Inv(q) && SameBut(r, q) && (forall s :: SubscribersOf(q, s) == if s in order then SubscribersOf(r, s) - {p}
                else SubscribersOf(r, s))
    decreases |order|
  {
    hide Inv, Unsubscribe, SubscribersOf;
    if order != [] {
      UnsubscribeInv(r, p, order[0]);
      UnsubscribeSame(r, p, order[0]);
      UnsubscribeRelation(r, p, order[0]);
      var a := Unsubscribe(r, p, order[0]);
      UnsubscribeTracksInv(a, p, order[1..]);
      SameButTransitive(r, a, UnsubscribeTracks(a, p, order[1..]));
      assert order == [order[0]] + order[1..];
    }
  }

  lemma HeadOrTail(order: seq<string>, x: string)
    requires order != []
    ensures x in order <==> x == order[0] || x in order[1..]
  {
    assert order == [order[0]] + order[1..];
  }

  /** The subscribers of t without those in `order`; every other track as before. */
  ghost predicate CutFrom(r: Room, q: Room, order: seq<string>, t: string) {
    && (forall s :: s != t ==> SubscribersOf(q, s) == SubscribersOf(r, s))
    && (forall m :: m in SubscribersOf(q, t) <==> m in SubscribersOf(r, t) && m !in order)
  }

  lemma CutOne(r: Room, a: Room, q: Room, order: seq<string>, t: string)
    requires order != [] && CutFrom(a, q, order[1..], t)
    requires forall s :: SubscribersOf(a, s) == if s == t then SubscribersOf(r, s) - {order[0]} else SubscribersOf(r, s)
    ensures CutFrom(r, q, order, t)
  {
    hide SubscribersOf;
    forall m ensures m in SubscribersOf(q, t) <==> m in SubscribersOf(r, t) && m !in order {
      HeadOrTail(order, m);
      assert m in SubscribersOf(a, t) <==> m in SubscribersOf(r, t) && m != order[0];
    }
  }

  lemma {:induction false} UnsubscribeMembersInv(r: Room, order: seq<string>, t: string)
    requires Mirrored(r) && Joined(r) && EmptyWhenClosed(r)
    ensures var q := UnsubscribeMembers(r, order, t);
            Mirrored(q) && Joined(q) && EmptyWhenClosed(q) && SameBut(r, q) && CutFrom(r, q, order, t)
    decreases |order|
  {
    hide Mirrored, Joined, EmptyWhenClosed, Unsubscribe;
    if order != [] {
      UnsubscribeMirrored(r, order[0], t);
      UnsubscribeJoined(r, order[0], t);
      UnsubscribeClosed(r, order[0], t);
      UnsubscribeSame(r, order[0], t);
      UnsubscribeRelation(r, order[0], t);
      var a := Unsubscribe(r, order[0], t);
      hide CutFrom, SubscribersOf;
      UnsubscribeMembersInv(a, order[1..], t);
      var q := UnsubscribeMembers(a, order[1..], t);
      SameButTransitive(r, a, q);
      CutOne(r, a, q, order, t);
    }
  }

  // ---- announcements ----

  lemma AnnounceNumbered(r: Room, t: string, added: bool)
    requires Numbered(r) && t in r.tracks
    requires added ==> forall i :: 0 <= i < |r.announced| && r.announced[i].added ==>
             r.announced[i].publication != r.tracks[t].publication
    ensures Numbered(Announce(r, t, added))
  {
  }

  lemma RevisionNumbered(r: Room)
    requires Numbered(r)
    ensures Numbered(NextRevision(r))
  {
  }

  lemma {:induction false} AnnounceAllNumbered(r: Room, order: seq<string>)
    requires Numbered(r)
    ensures Numbered(AnnounceAll(r, order)) && AnnounceAll(r, order).tracks == r.tracks
    decreases |order|
  {
    hide Numbered;
    if order != [] {
      if order[0] in r.tracks {
        AnnounceNumbered(r, order[0], false);
        AnnounceAllNumbered(Announce(r, order[0], false), order[1..]);
      } else {
        AnnounceAllNumbered(r, order[1..]);
      }
    }
  }

  lemma FewerTracksNumbered(r: Room, q: Room)
    requires Numbered(r) && q.nextPublication == r.nextPublication && q.trackRevision == r.trackRevision
    requires q.participantRevision == r.participantRevision && q.announced == r.announced && q.revisions == r.revisions
    requires forall t :: t in q.tracks ==> t in r.tracks && q.tracks[t] == r.tracks[t]
    ensures Numbered(q)
  {
  }

  // ---- removing a track ----

  /** Ownership for everybody but p, whose tracks are being withdrawn. */
  ghost predicate OwnedBut(r: Room, p: string) {
    && (forall t :: t in r.tracks ==> t != "" && r.tracks[t].publisher in r.participants)
    && (forall q :: q in r.participants ==> q != "" && (q != p ==> r.participants[q].published == PublishedBy(r, q)))
  }

  ghost predicate InvBut(r: Room, p: string) {
    Mirrored(r) && Joined(r) && OwnedBut(r, p) && EmptyWhenClosed(r) && Numbered(r)
  }

  /** The walk visits every element of the set once. */
  predicate Lists(order: seq<string>, s: set<string>) {
    && (forall x :: x in s ==> x in order) && (forall i :: 0 <= i < |order| ==> order[i] in s)
    && (forall i, j :: 0 <= i < j < |order| ==> order[i] != order[j])
  }

  lemma OwnedButFrame(r: Room, q: Room, p: string)
    requires OwnedBut(r, p) && SameBut(r, q)
    ensures OwnedBut(q, p)
  {
    assert forall m :: m in q.participants ==> m in q.participants.Keys && m in r.participants;
    assert forall m :: m in r.participants ==> m in r.participants.Keys && m in q.participants;
    assert forall m :: PublishedBy(q, m) == PublishedBy(r, m);
  }

  /** The same room, without track t and without its subscriptions. */
  ghost predicate Withdrawn(r: Room, q: Room, t: string) {
    && q.tracks == r.tracks - {t} && q.status == r.status && q.participants.Keys == r.participants.Keys
    && (forall m :: m in r.participants ==>
        (m in q.participants && q.participants[m].published == r.participants[m].published &&
            q.participants[m].bound == r.participants[m].bound))
    && (forall s, m :: m in SubscribersOf(q, s) <==> m in SubscribersOf(r, s) && s != t)
    && q.autoSubscribe == r.autoSubscribe
  }

  lemma DropTrackOwned(r: Room, q: Room, t: string)
    requires t in r.tracks && OwnedBut(r, r.tracks[t].publisher)
    requires q.tracks == r.tracks - {t} && q.participants.Keys == r.participants.Keys
    requires forall m :: m in r.participants ==>
             m in q.participants && q.participants[m].published == r.participants[m].published
    ensures OwnedBut(q, r.tracks[t].publisher)
  {
    assert forall m :: m in q.participants ==> m in q.participants.Keys && m in r.participants;
    assert forall m :: m in r.participants ==> m in r.participants.Keys;
    forall m | m in q.participants && m != r.tracks[t].publisher
      ensures q.participants[m].published == PublishedBy(q, m)
    {
      assert PublishedBy(q, m) == PublishedBy(r, m);
    }
  }

  lemma DropTrackJoined(a: Room, q: Room, t: string)
    requires Joined(a) && Mirrored(a) && SubscribersOf(a, t) == {}
    requires q.tracks == a.tracks - {t} && q.participants == a.participants && q.byParticipant == a.byParticipant
    requires q.byTrack == a.byTrack || q.byTrack == a.byTrack - {t}
    ensures Joined(q) && Mirrored(q)
    ensures forall s :: SubscribersOf(q, s) == SubscribersOf(a, s)
  {
    forall s ensures SubscribersOf(q, s) == SubscribersOf(a, s) {
    }
    forall m ensures TracksOf(q, m) == TracksOf(a, m) {
    }
    hide SubscribersOf, TracksOf;
    forall m, s | m in SubscribersOf(q, s) ensures Eligible(q, m, s) {
      assert m in SubscribersOf(a, s);
    }
    forall m, s ensures m in SubscribersOf(q, s) <==> s in TracksOf(q, m) {
      assert m in SubscribersOf(a, s) <==> s in TracksOf(a, m);
    }
  }

  lemma CutEmpty(r: Room, a: Room, order: seq<string>, t: string)
    requires CutFrom(r, a, order, t) && forall m :: m in SubscribersOf(r, t) ==> m in order
    ensures SubscribersOf(a, t) == {}
  {
    hide SubscribersOf;
    forall m ensures m !in SubscribersOf(a, t) {
    }
  }

  /** Withdrawing a track with all its subscribers; the entry left empty may be dropped too. */
  lemma WithdrawInv(r: Room, t: string, order: seq<string>, drop: bool)
    requires t in r.tracks && InvBut(r, r.tracks[t].publisher) && r.status != Closed
    requires forall m :: m in SubscribersOf(r, t) ==> m in order
    ensures var w := Withdraw(r, t, order);
            var q := if drop then w.(byTrack := w.byTrack - {t}) else w;
            InvBut(q, r.tracks[t].publisher) && Withdrawn(r, q, t)
  {
    hide Mirrored, Joined, OwnedBut, Numbered, SubscribersOf, CutFrom, UnsubscribeMembers;
    UnsubscribeMembersInv(r, order, t);
    var a := UnsubscribeMembers(r, order, t);
    NumberedFrame(r, a);
    OwnedButFrame(r, a, r.tracks[t].publisher);
    CutEmpty(r, a, order, t);
    var w := Withdraw(r, t, order);
    var q := if drop then w.(byTrack := w.byTrack - {t}) else w;
    AnnounceNumbered(a, t, false);
    FewerTracksNumbered(Announce(a, t, false), w);
    NumberedFrame(w, q);
    DropTrackJoined(a, q, t);
    MembersKept(r, a);
    DropTrackOwned(a, q, t);
    WithdrawnRelation(r, a, q, order, t);
  }

  lemma MembersKept(r: Room, a: Room)
    requires SameBut(r, a)
    ensures forall m :: m in r.participants <==> m in a.participants
  {
    assert forall m :: m in r.participants <==> m in r.participants.Keys;
    assert forall m :: m in a.participants <==> m in a.participants.Keys;
  }

  lemma WithdrawnRelation(r: Room, a: Room, q: Room, order: seq<string>, t: string)
    requires CutFrom(r, a, order, t) && SubscribersOf(a, t) == {} &&
             forall s :: SubscribersOf(q, s) == SubscribersOf(a, s)
    ensures forall s, m :: m in SubscribersOf(q, s) <==> m in SubscribersOf(r, s) && s != t
  {
    hide SubscribersOf;
  }
}
