/**
 A room on values: participants, published tracks, and the two subscription indexes.
 Hash containers are walked in an unspecified order, so commands that walk one take the
 order as a parameter. What media endpoints answer is a parameter as well: `refused`
 holds the subscriptions they turn down.
 */
module RoomModel {
  /** A participant as the room sees it: its own sets of tracks, and whether media is bound to it. */
  datatype Member = Member(subscribed: set<string>, published: set<string>, bound: bool)

  datatype Track = Track(publisher: string, publication: nat)

  datatype Status = Created | Active | Empty | Closed

  /** A track change as it is announced. */
  datatype Snapshot = Snapshot(track: string, publisher: string, publication: nat, revision: nat, added: bool)

  datatype Room = Room(
    maxParticipants: nat, autoSubscribe: bool,
    status: Status,
    participants: map<string, Member>,
    tracks: map<string, Track>,
    byTrack: map<string, set<string>>,
    byParticipant: map<string, set<string>>,
    nextPublication: nat, trackRevision: nat, participantRevision: nat,
    announced: seq<Snapshot>,    // every track change announced so far
    revisions: seq<nat>)         // every participant revision announced so far

  function NewRoom(maxParticipants: nat, autoSubscribe: bool): Room {
    Room(maxParticipants, autoSubscribe, Created, map[], map[], map[], map[], 0, 0, 0, [], [])
  }

  function SubscribersOf(r: Room, t: string): set<string> {
    if t in r.byTrack then r.byTrack[t] else {}
  }

  function TracksOf(r: Room, p: string): set<string> {
    if p in r.byParticipant then r.byParticipant[p] else {}
  }

  function PublishedBy(r: Room, p: string): set<string> {
    set t | t in r.tracks && r.tracks[t].publisher == p
  }

  // ---- subscriptions ----

  /** The subscription is one the room allows. */
  predicate Eligible(r: Room, p: string, t: string) {
    p != "" && t != "" && p in r.participants && t in r.tracks && r.tracks[t].publisher != p
  }

  predicate Routable(r: Room, p: string, t: string, refused: set<(string, string)>)
    requires Eligible(r, p, t)
  {
    var q := r.tracks[t].publisher;
    q in r.participants && (r.participants[q].bound || r.participants[p].bound ==> (p, t) !in refused)
  }

  /** SubscribeTrackLocked; an attempt that fails late leaves an empty entry behind. */
  function Subscribe(r: Room, p: string, t: string, refused: set<(string, string)>): (Room, bool) {
    if !Eligible(r, p, t) then (r, false)
    else if p in SubscribersOf(r, t) || !Routable(r, p, t, refused) then
      (r.(byTrack := r.byTrack[t := SubscribersOf(r, t)]), false)
    else
      var m := r.participants[p];
      (r.(byTrack := r.byTrack[t := SubscribersOf(r, t) + {p}],
          byParticipant := r.byParticipant[p := TracksOf(r, p) + {t}],
          participants := r.participants[p := m.(subscribed := m.subscribed + {t})]), true)
  }

  /** A set in an index without one element; an entry that becomes empty goes. */
  function Without(index: map<string, set<string>>, k: string, x: string): map<string, set<string>> {
    if k !in index then index
    else if index[k] - {x} == {} then index - {k}
    else index[k := index[k] - {x}]
  }

  function Forget(participants: map<string, Member>, p: string, t: string): map<string, Member> {
    if p !in participants then participants
    else
      var m := participants[p];
      participants[p := m.(subscribed := m.subscribed - {t})]
  }

  /** UnsubscribeTrackLocked */
  function Unsubscribe(r: Room, p: string, t: string): Room {
    r.(byTrack := Without(r.byTrack, t, p), byParticipant := Without(r.byParticipant, p, t),
       participants := Forget(r.participants, p, t))
  }

  function SubscribeTracks(r: Room, p: string, order: seq<string>, refused: set<(string, string)>): Room
    decreases |order|
  {
    if order == [] then r else SubscribeTracks(Subscribe(r, p, order[0], refused).0, p, order[1..], refused)
  }

  function SubscribeMembers(r: Room, order: seq<string>, t: string, refused: set<(string, string)>): Room
    decreases |order|
  {
    if order == [] then r else SubscribeMembers(Subscribe(r, order[0], t, refused).0, order[1..], t, refused)
  }

  function UnsubscribeTracks(r: Room, p: string, order: seq<string>): Room
    decreases |order|
  {
    if order == [] then r else UnsubscribeTracks(Unsubscribe(r, p, order[0]), p, order[1..])
  }

  function UnsubscribeMembers(r: Room, order: seq<string>, t: string): Room
    decreases |order|
  {
    if order == [] then r else UnsubscribeMembers(Unsubscribe(r, order[0], t), order[1..], t)
  }

  // ---- announcements ----

  /** TrackSnapshotLocked and the event that carries it. */
  function Announce(r: Room, t: string, added: bool): Room
    requires t in r.tracks
  {
    var s := Snapshot(t, r.tracks[t].publisher, r.tracks[t].publication, r.trackRevision + 1, added);
    r.(trackRevision := r.trackRevision + 1, announced := r.announced + [s])
  }

  function NextRevision(r: Room): Room {
    r.(participantRevision := r.participantRevision + 1, revisions := r.revisions + [r.participantRevision + 1])
  }

  function UpdateStatus(r: Room): Room {
    if r.status == Closed then r
    else r.(status := if |r.participants| == 0 then Empty else Active)
  }

  // ---- commands ----

  predicate CanJoin(r: Room, p: string) {
    r.status != Closed && p != "" && p !in r.participants &&
        (r.maxParticipants > 0 ==> |r.participants| < r.maxParticipants)
  }

  /** The tracks a new participant is subscribed to. */
  function OthersTracks(r: Room, p: string): set<string> {
    set t | t in r.tracks && r.tracks[t].publisher != p
  }

  /** Join, with the tracks in the order they are walked. */
  function Join(r: Room, p: string, bound: bool, order: seq<string>, refused: set<(string, string)>): (Room, bool) {
    if !CanJoin(r, p) then (r, false)
    else
      var a := r.(participants := r.participants[p := Member({}, {}, bound)]);
      var b := if r.autoSubscribe then SubscribeTracks(a, p, order, refused) else a;
      (NextRevision(UpdateStatus(b)), true)
  }

  /** Removes one published track with its subscriptions. */
  function Withdraw(r: Room, t: string, order: seq<string>): Room
    requires t in r.tracks
  {
    var a := UnsubscribeMembers(r, order, t);
    if t in a.tracks then
      var b := Announce(a, t, false);
      b.(tracks := b.tracks - {t})
    else a
  }

  /** The walks over containers that Leave makes: its subscriptions, its tracks, and each track's subscribers. */
  datatype Walks = Walks(subscriptions: seq<string>, tracks: seq<string>, members: map<string, seq<string>>)

  function MembersOf(w: Walks, t: string): seq<string> {
    if t in w.members then w.members[t] else []
  }

  function WithdrawAll(r: Room, order: seq<string>, w: Walks): Room
    decreases |order|
  {
    if order == [] then r
    else if order[0] !in r.tracks then WithdrawAll(r, order[1..], w)
    else
      var a := Withdraw(r, order[0], MembersOf(w, order[0]));
      WithdrawAll(a.(byTrack := a.byTrack - {order[0]}), order[1..], w)
  }

  function Leave(r: Room, p: string, w: Walks): (Room, bool) {
    if p !in r.participants then (r, false)
    else
      var a := UnsubscribeTracks(r, p, w.subscriptions);
      var b := WithdrawAll(a, w.tracks, w);
      (UpdateStatus(NextRevision(b.(participants := b.participants - {p}))), true)
  }

  /** The track in the room's map and in its publisher's set, under a new publication number. */
  function AddTrack(r: Room, p: string, t: string): Room
    requires p in r.participants
  {
    var m := r.participants[p];
    r.(participants := r.participants[p := m.(published := m.published + {t})],
       nextPublication := r.nextPublication + 1, tracks := r.tracks[t := Track(p, r.nextPublication + 1)])
  }

  predicate CanPublish(r: Room, p: string, t: string, ready: bool) {
    t != "" && r.status != Closed && p in r.participants && t !in r.tracks && ready && t !in r.participants[p].published
  }

  /** PublishTrack; `ready` is what the publisher's endpoint answers. */
  function Publish(r: Room, p: string, t: string, ready: bool, order: seq<string>,
      refused: set<(string, string)>): (Room, bool) {
    if !CanPublish(r, p, t, ready) then (r, false)
    else
      var b := Announce(AddTrack(r, p, t), t, true);
      (if r.autoSubscribe then SubscribeMembers(b, order, t, refused) else b, true)
  }

  /** What Participant::RemovePublishedTrack does to the publisher. */
  function Unpublished(r: Room, p: string, t: string): Room {
    if p !in r.participants then r
    else
      var m := r.participants[p];
      r.(participants := r.participants[p := m.(published := m.published - {t})])
  }

  function Unpublish(r: Room, t: string, order: seq<string>): (Room, bool) {
    if t == "" || t !in r.tracks then (r, false)
    else (Unpublished(Withdraw(r, t, order), r.tracks[t].publisher, t), true)
  }

  function AnnounceAll(r: Room, order: seq<string>): Room
    decreases |order|
  {
    if order == [] then r
    else if order[0] !in r.tracks then AnnounceAll(r, order[1..])
    else AnnounceAll(Announce(r, order[0], false), order[1..])
  }

  function Close(r: Room, order: seq<string>): Room {
    if r.status == Closed then r
    else
      var a := AnnounceAll(r, order);
      a.(status := Closed, participants := map[], tracks := map[], byTrack := map[], byParticipant := map[])
  }

  /** UpdateParticipant and NotifyParticipantChanged */
  function Touch(r: Room, p: string): Room {
    if p in r.participants then NextRevision(r) else r
  }

  /** Media is bound to or unbound from a participant. */
  function Bind(r: Room, p: string, bound: bool): Room {
    if p !in r.participants then r else r.(participants := r.participants[p := r.participants[p].(bound := bound)])
  }
}
