/** The room with its maps and counters updated in place. */
module Rooms {
  import opened RoomModel

  class MediaRoom {
    const maxParticipants: nat
    const autoSubscribe: bool
    var status: Status
    var participants: map<string, Member>
    var tracks: map<string, Track>
    var byTrack: map<string, set<string>>
    var byParticipant: map<string, set<string>>
    var nextPublication: nat
    var trackRevision: nat
    var participantRevision: nat
    ghost var announced: seq<Snapshot>
    ghost var revisions: seq<nat>

    ghost function Model(): Room
      reads this
    {
      Room(maxParticipants, autoSubscribe, status, participants, tracks, byTrack, byParticipant,
           nextPublication, trackRevision, participantRevision, announced, revisions)
    }

    constructor (maxParticipants: nat, autoSubscribe: bool)
      ensures Model() == NewRoom(maxParticipants, autoSubscribe)
    {
      this.maxParticipants, this.autoSubscribe := maxParticipants, autoSubscribe;
      status, participants, tracks, byTrack, byParticipant := Created, map[], map[], map[], map[];
      nextPublication, trackRevision, participantRevision, announced, revisions := 0, 0, 0, [], [];
    }

    // ---- subscriptions ----

    method SubscribeTrackLocked(p: string, t: string, refused: set<(string, string)>) returns (ok: bool)
      modifies this
      ensures (Model(), ok) == Subscribe(old(Model()), p, t, refused)
    {
      if p == "" || t == "" || p !in participants || t !in tracks || tracks[t].publisher == p {
        return false;
      }
      if t !in byTrack {
        byTrack := byTrack[t := {}];
      }
      assert byTrack == old(byTrack)[t := SubscribersOf(old(Model()), t)];
      if p in byTrack[t] {
        return false;
      }
      var q := tracks[t].publisher;
      if q !in participants {
        return false;
      }
      if participants[q].bound || participants[p].bound {
        if (p, t) in refused {
          return false;
        }
      }
      byTrack := byTrack[t := byTrack[t] + {p}];
      assert byTrack == old(byTrack)[t := SubscribersOf(old(Model()), t) + {p}];
      byParticipant := byParticipant[p := (if p in byParticipant then byParticipant[p] else {}) + {t}];
      participants := participants[p := participants[p].(subscribed := participants[p].subscribed + {t})];
      ok := true;
    }

    method UnsubscribeTrackLocked(p: string, t: string)
      modifies this
      ensures Model() == Unsubscribe(old(Model()), p, t)
    {
      if t in byTrack {
        byTrack := byTrack[t := byTrack[t] - {p}];
        if byTrack[t] == {} {
          byTrack := byTrack - {t};
        }
      }
      if p in byParticipant {
        byParticipant := byParticipant[p := byParticipant[p] - {t}];
        if byParticipant[p] == {} {
          byParticipant := byParticipant - {p};
        }
      }
      if p in participants {
        participants := participants[p := participants[p].(subscribed := participants[p].subscribed - {t})];
      }
      RemovedTwice(old(byTrack), t, p);
      RemovedTwice(old(byParticipant), p, t);
    }

    // ---- announcements ----

    method TrackSnapshot(t: string, added: bool) returns (revision: nat)
      requires t in tracks
      modifies this
      ensures Model() == Announce(old(Model()), t, added) && revision == trackRevision
    {
      trackRevision := trackRevision + 1;
      announced := announced + [Snapshot(t, tracks[t].publisher, tracks[t].publication, trackRevision, added)];
      revision := trackRevision;
    }

    method BumpRevision()
      modifies this
      ensures Model() == NextRevision(old(Model()))
    {
      participantRevision := participantRevision + 1;
      revisions := revisions + [participantRevision];
    }

    method UpdateState()
      modifies this
      ensures Model() == UpdateStatus(old(Model()))
    {
      if status == Closed {
        return;
      }
      status := if |participants| == 0 then Empty else Active;
    }

    // ---- commands ----

    method JoinRoom(p: string, bound: bool, order: seq<string>, refused: set<(string, string)>) returns (ok: bool)
      modifies this
      ensures (Model(), ok) == Join(old(Model()), p, bound, order, refused)
    {
      hide Subscribe;
      if status == Closed || p == "" || p in participants ||
          (maxParticipants > 0 && |participants| >= maxParticipants) {
        return false;
      }
      participants := participants[p := Member({}, {}, bound)];
      if autoSubscribe {
        ghost var start := Model();
        var i := 0;
        while i < |order|
          invariant i <= |order| && SubscribeTracks(Model(), p, order[i..], refused) ==
                    SubscribeTracks(start, p, order, refused)
        {
          Next(order, i);
          var _ := SubscribeTrackLocked(p, order[i], refused);
          i := i + 1;
        }
        assert order[|order|..] == [];
      }
      UpdateState();
      BumpRevision();
      ok := true;
    }

    /** Unsubscribes every subscriber of a track and takes the track out. */
    method WithdrawTrack(t: string, order: seq<string>)
      requires t in tracks
      modifies this
      ensures Model() == Withdraw(old(Model()), t, order)
    {
      hide Unsubscribe;
      ghost var start := Model();
      var i := 0;
      while i < |order|
        invariant i <= |order| && UnsubscribeMembers(Model(), order[i..], t) == UnsubscribeMembers(start, order, t)
        invariant tracks == start.tracks
      {
        Next(order, i);
        KeepsTracks(Model(), order[i], t);
        UnsubscribeTrackLocked(order[i], t);
        i := i + 1;
      }
      assert order[|order|..] == [];
      var _ := TrackSnapshot(t, false);
      tracks := tracks - {t};
    }

    method DropSubscriptions(p: string, order: seq<string>)
      modifies this
      ensures Model() == UnsubscribeTracks(old(Model()), p, order)
    {
      hide Unsubscribe;
      ghost var start := Model();
      var i := 0;
      while i < |order|
        invariant i <= |order| && UnsubscribeTracks(Model(), p, order[i..]) == UnsubscribeTracks(start, p, order)
      {
        Next(order, i);
        UnsubscribeTrackLocked(p, order[i]);
        i := i + 1;
      }
      assert order[|order|..] == [];
    }

    method DropTracks(order: seq<string>, w: Walks)
      modifies this
      ensures Model() == WithdrawAll(old(Model()), order, w)
    {
      hide Withdraw;
      ghost var start := Model();
      var i := 0;
      while i < |order|
        invariant i <= |order| && WithdrawAll(Model(), order[i..], w) == WithdrawAll(start, order, w)
      {
        Next(order, i);
        if order[i] in tracks {
          WithdrawTrack(order[i], MembersOf(w, order[i]));
          byTrack := byTrack - {order[i]};
        }
        i := i + 1;
      }
      assert order[|order|..] == [];
    }

    method LeaveRoom(p: string, w: Walks) returns (ok: bool)
      modifies this
      ensures (Model(), ok) == Leave(old(Model()), p, w)
    {
      hide UnsubscribeTracks, WithdrawAll;
      if p !in participants {
        return false;
      }
      DropSubscriptions(p, w.subscriptions);
      DropTracks(w.tracks, w);
      participants := participants - {p};
      BumpRevision();
      UpdateState();
      ok := true;
    }

    method PublishTrack(p: string, t: string, ready: bool, order: seq<string>, refused: set<(string, string)>)
        returns (ok: bool)
      modifies this
      ensures (Model(), ok) == Publish(old(Model()), p, t, ready, order, refused)
    {
      hide Subscribe;
      if t == "" || status == Closed || p !in participants || t in tracks || !ready || t in participants[p].published {
        return false;
      }
      participants := participants[p := participants[p].(published := participants[p].published + {t})];
      nextPublication := nextPublication + 1;
      tracks := tracks[t := Track(p, nextPublication)];
      var _ := TrackSnapshot(t, true);
      if autoSubscribe {
        SubscribeOthers(order, t, refused);
      }
      ok := true;
    }

    method SubscribeOthers(order: seq<string>, t: string, refused: set<(string, string)>)
      modifies this
      ensures Model() == SubscribeMembers(old(Model()), order, t, refused)
    {
      hide Subscribe;
      ghost var start := Model();
      var i := 0;
      while i < |order|
        invariant i <= |order| && SubscribeMembers(Model(), order[i..], t, refused) ==
                  SubscribeMembers(start, order, t, refused)
      {
        Next(order, i);
        var _ := SubscribeTrackLocked(order[i], t, refused);
        i := i + 1;
      }
      assert order[|order|..] == [];
    }

    method UnpublishTrack(t: string, order: seq<string>) returns (ok: bool)
      modifies this
      ensures (Model(), ok) == Unpublish(old(Model()), t, order)
    {
      hide Withdraw;
      if t == "" || t !in tracks {
        return false;
      }
      var p := tracks[t].publisher;
      WithdrawTrack(t, order);
      if p in participants {
        participants := participants[p := participants[p].(published := participants[p].published - {t})];
      }
      ok := true;
    }

    method CloseRoom(order: seq<string>)
      modifies this
      ensures Model() == Close(old(Model()), order)
    {
      if status == Closed {
        return;
      }
      AnnounceRemovals(order);
      status, participants, tracks, byTrack, byParticipant := Closed, map[], map[], map[], map[];
    }

    method AnnounceRemovals(order: seq<string>)
      modifies this
      ensures Model() == AnnounceAll(old(Model()), order)
    {
      hide Announce;
      ghost var start := Model();
      var i := 0;
      while i < |order|
        invariant i <= |order| && AnnounceAll(Model(), order[i..]) == AnnounceAll(start, order)
      {
        Next(order, i);
        if order[i] in tracks {
          var _ := TrackSnapshot(order[i], false);
        }
        i := i + 1;
      }
      assert order[|order|..] == [];
    }
  }

  lemma Next(order: seq<string>, i: nat)
    requires i < |order|
    ensures order[i..] != [] && order[i..][0] == order[i] && order[i..][1..] == order[i + 1..]
  {
  }

  lemma RemovedTwice(index: map<string, set<string>>, k: string, x: string)
    ensures k in index ==>
              var m := index[k := index[k] - {x}];
              Without(index, k, x) == if m[k] == {} then m - {k} else m
  {
    if k in index && index[k] - {x} == {} {
      assert index[k := index[k] - {x}] - {k} == index - {k};
    }
  }

  lemma KeepsTracks(r: Room, p: string, t: string)
    ensures Unsubscribe(r, p, t).tracks == r.tracks
  {
  }
}
