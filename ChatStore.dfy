/**
 * The three tables the chat client works against (`user_sessions`,
 * `chat_rooms`, `messages`), the updates it issues on them, and the store
 * invariant that the matchmaking protocol keeps: a session takes part in at
 * most one active room, a session that is still searching takes part in
 * none, and every room lists its two members in canonical order.
 */
module ChatStore {
  import opened Wrappers
  import opened Text

  /** `oneDayAgo.setDate(oneDayAgo.getDate() - 1)`, in milliseconds. */
  const OneDay: int := 86_400_000

  datatype Status = Waiting | Connecting | Matched

  /** A `user_sessions` row, keyed by its session id in `Sessions`. */
  datatype Session = Session(username: string, status: Status, updatedAt: int)

  type Sessions = map<string, Session>

  /** A `chat_rooms` row; its id is its index in the room table. */
  datatype Room = Room(user1: string, user2: string, createdAt: int, endedAt: Option<int>)
  {
    predicate Active() { endedAt.None? }
    predicate Involves(id: string) { user1 == id || user2 == id }
  }

  /** A `messages` row. */
  datatype StoredMessage = StoredMessage(room: nat, sender: string, text: string)

  /** The other member of `room`, seen from `self` (ChatApp.tsx:111, 207, 511). */
  function PartnerOf(room: Room, self: string): (p: string)
    ensures room.Involves(p)
    ensures room.Involves(self) ==> {self, p} == {room.user1, room.user2}
    ensures room.Involves(self) && room.user1 != room.user2 ==> p != self
  {
    if room.user1 == self then room.user2 else room.user1
  }

  /**
   * The member order of a new room: the smaller id first (ChatApp.tsx:391-392).
   * For two different ids the pair is strictly ordered and is the same
   * whichever of the two asks.
   */
  function Canonical(self: string, partner: string): (pair: (string, string))
    ensures {pair.0, pair.1} == {self, partner}
    ensures self != partner ==> Less(pair.0, pair.1)
  {
    if Less(self, partner) then (self, partner)
    else
      LessTotal(self, partner);
      (partner, self)
  }

  lemma CanonicalSymmetric(a: string, b: string)
    requires a != b
    ensures Canonical(a, b) == Canonical(b, a)
  {
    LessAsymmetric(a, b);
    LessTotal(a, b);
  }

  /** The display name found for a session id, `data?.username || "Unknown"`. */
  function DisplayName(sessions: Sessions, id: string, lookupOk: bool): (name: string)
    ensures name != []
    ensures name != "Unknown" ==> lookupOk && id in sessions && name == sessions[id].username
  {
    if lookupOk && id in sessions && sessions[id].username != [] then sessions[id].username
    else "Unknown"
  }

  // ---------------------------------------------------------------- sessions

  /**
   * `update({status, updated_at}).eq('session_id', id)`: the one row with
   * that id gets the new status (and the new timestamp when one is given);
   * without such a row nothing changes.
   */
  function SetStatus(sessions: Sessions, id: string, status: Status, now: Option<int>): (r: Sessions)
    ensures r.Keys == sessions.Keys
    ensures id in sessions ==> r[id].status == status && r[id].username == sessions[id].username
    ensures id in sessions ==> r[id].updatedAt == if now.Some? then now.value else sessions[id].updatedAt
    ensures forall other :: other in sessions && other != id ==> r[other] == sessions[other]
  {
    if id in sessions then
      var s := sessions[id];
      sessions[id := s.(status := status, updatedAt := if now.Some? then now.value else s.updatedAt)]
    else sessions
  }

  /** Repeating a status update with the same status and time changes nothing more. */
  lemma SetStatusAgain(sessions: Sessions, id: string, status: Status, now: Option<int>)
    ensures SetStatus(SetStatus(sessions, id, status, now), id, status, now) == SetStatus(sessions, id, status, now)
  {
  }

  /** The same update guarded by `.eq('status', expected)`. */
  function SetStatusIf(sessions: Sessions, id: string, expected: Status, status: Status, now: Option<int>): (r: Sessions)
    ensures id in sessions && sessions[id].status == expected ==> r == SetStatus(sessions, id, status, now)
    ensures !(id in sessions && sessions[id].status == expected) ==> r == sessions
  {
    if id in sessions && sessions[id].status == expected then SetStatus(sessions, id, status, now)
    else sessions
  }

  /** `p` is a session other than `self`, still connecting, and none such has waited longer. */
  ghost predicate IsOldestCandidate(sessions: Sessions, self: string, p: string) {
    && p in sessions && p != self && sessions[p].status == Connecting
    && forall q :: q in sessions && q != self && sessions[q].status == Connecting ==>
         sessions[p].updatedAt <= sessions[q].updatedAt
  }

  ghost predicate NoCandidate(sessions: Sessions, self: string) {
    forall q :: q in sessions && q != self ==> sessions[q].status != Connecting
  }

  /** Every non-empty set of sessions has one whose `updatedAt` is least. */
  lemma {:induction false} OldestExists(sessions: Sessions, candidates: set<string>)
    requires candidates != {} && candidates <= sessions.Keys
    ensures exists p :: p in candidates &&
              forall q :: q in candidates ==> sessions[p].updatedAt <= sessions[q].updatedAt
    decreases |candidates|
  {
    var x :| x in candidates;
    var rest := candidates - {x};
    if rest != {} {
      OldestExists(sessions, rest);
      var p :| p in rest && forall q :: q in rest ==> sessions[p].updatedAt <= sessions[q].updatedAt;
      if sessions[x].updatedAt < sessions[p].updatedAt {
        assert forall q :: q in candidates ==> sessions[x].updatedAt <= sessions[q].updatedAt;
      } else {
        assert forall q :: q in candidates ==> sessions[p].updatedAt <= sessions[q].updatedAt;
      }
    } else {
      assert candidates == {x};
    }
  }

  /**
   * The partner query (ChatApp.tsx:351-357): status `connecting`, not the
   * caller, oldest `updated_at` first, at most one row. Ties are broken
   * arbitrarily, as the database does.
   */
  method SelectOldestConnecting(sessions: Sessions, self: string) returns (r: Option<string>)
    ensures r.Some? ==> IsOldestCandidate(sessions, self, r.value)
    ensures r.None? ==> NoCandidate(sessions, self)
  {
    var candidates := set q | q in sessions && q != self && sessions[q].status == Connecting;
    if candidates == {} {
      forall q | q in sessions && q != self ensures sessions[q].status != Connecting {
        assert sessions[q].status == Connecting ==> q in candidates;
      }
      return None;
    }
    OldestExists(sessions, candidates);
    var p :| p in candidates &&
             forall q :: q in candidates ==> sessions[p].updatedAt <= sessions[q].updatedAt;
    return Some(p);
  }

  // ------------------------------------------------------------------- rooms

  predicate NoActiveRoomOf(rooms: seq<Room>, id: string) {
    forall i :: 0 <= i < |rooms| ==> !(rooms[i].Active() && rooms[i].Involves(id))
  }

  /** `rooms2` is `rooms` with some active rooms ended and nothing else changed. */
  predicate OnlyEnds(rooms: seq<Room>, rooms2: seq<Room>) {
    && |rooms2| == |rooms|
    && forall i :: 0 <= i < |rooms| ==>
         && rooms2[i].user1 == rooms[i].user1 && rooms2[i].user2 == rooms[i].user2
         && rooms2[i].createdAt == rooms[i].createdAt
         && (rooms2[i].Active() ==> rooms2[i] == rooms[i])
  }

  function EndAt(room: Room, now: int): Room {
    room.(endedAt := Some(now))
  }

  /**
   * `update({ended_at: now}).or(user1 = id, user2 = id).is('ended_at', null)`
   * (ChatApp.tsx:331-337): every active room involving `id` is ended now,
   * every other room is left as it was.
   */
  function EndRoomsOf(rooms: seq<Room>, id: string, now: int): (r: seq<Room>)
    ensures OnlyEnds(rooms, r) && NoActiveRoomOf(r, id)
    ensures forall i :: 0 <= i < |rooms| && rooms[i].Active() && rooms[i].Involves(id) ==>
              r[i] == EndAt(rooms[i], now)
    ensures forall i :: 0 <= i < |rooms| && !(rooms[i].Active() && rooms[i].Involves(id)) ==>
              r[i] == rooms[i]
  {
    seq(|rooms|, i requires 0 <= i < |rooms| =>
      if rooms[i].Active() && rooms[i].Involves(id) then EndAt(rooms[i], now) else rooms[i])
  }

  /** A room the sweep ends: still active and created more than a day before `now`. */
  predicate Stale(room: Room, now: int) {
    room.Active() && room.createdAt < now - OneDay
  }

  /**
   * `cleanupOldChats` (ChatApp.tsx:309-320): every stale room is ended now,
   * every other room is left as it was, so afterwards no active room is
   * older than a day.
   */
  function SweepStale(rooms: seq<Room>, now: int): (r: seq<Room>)
    ensures OnlyEnds(rooms, r)
    ensures forall i :: 0 <= i < |rooms| && Stale(rooms[i], now) ==> r[i] == EndAt(rooms[i], now)
    ensures forall i :: 0 <= i < |rooms| && !Stale(rooms[i], now) ==> r[i] == rooms[i]
    ensures forall i :: 0 <= i < |r| ==> !Stale(r[i], now)
  {
    seq(|rooms|, i requires 0 <= i < |rooms| =>
      if Stale(rooms[i], now) then EndAt(rooms[i], now) else rooms[i])
  }

  /** The first active room involving `id`, the `.limit(1)` lookup at ChatApp.tsx:102-107. */
  function FirstActiveRoomOf(rooms: seq<Room>, id: string): (r: Option<nat>)
    ensures r.Some? ==> r.value < |rooms| && rooms[r.value].Active() && rooms[r.value].Involves(id)
    ensures r.Some? ==> NoActiveRoomOf(rooms[..r.value], id)
    ensures r.None? <==> NoActiveRoomOf(rooms, id)
  {
    FirstActiveFrom(rooms, id, 0)
  }

  function FirstActiveFrom(rooms: seq<Room>, id: string, k: nat): (r: Option<nat>)
    requires k <= |rooms|
    requires NoActiveRoomOf(rooms[..k], id)
    ensures r.Some? ==> k <= r.value < |rooms| && rooms[r.value].Active() && rooms[r.value].Involves(id)
    ensures r.Some? ==> NoActiveRoomOf(rooms[..r.value], id)
    ensures r.None? <==> NoActiveRoomOf(rooms, id)
    decreases |rooms| - k
  {
    if k == |rooms| then
      assert rooms[..k] == rooms;
      None
    else if rooms[k].Active() && rooms[k].Involves(id) then Some(k)
    else
      assert forall i :: 0 <= i < k + 1 ==> rooms[..k + 1][i] == rooms[i];
      assert forall i :: 0 <= i < k ==> rooms[..k][i] == rooms[i];
      FirstActiveFrom(rooms, id, k + 1)
  }

  // --------------------------------------------------------------- invariant

  /** No session takes part in two active rooms. */
  ghost predicate AtMostOneActiveRoom(rooms: seq<Room>) {
    forall s, i, j ::
      (0 <= i < |rooms| && 0 <= j < |rooms| && rooms[i].Active() && rooms[j].Active()
       && rooms[i].Involves(s) && rooms[j].Involves(s)) ==> i == j
  }

  /** A session that is still searching takes part in no active room. */
  ghost predicate SearchingHaveNoRoom(sessions: Sessions, rooms: seq<Room>) {
    forall s :: s in sessions && sessions[s].status == Connecting ==> NoActiveRoomOf(rooms, s)
  }

  /** Every room lists its members in strictly increasing order. */
  predicate CanonicalRooms(rooms: seq<Room>) {
    forall i :: 0 <= i < |rooms| ==> Less(rooms[i].user1, rooms[i].user2)
  }

  ghost predicate StoreInv(sessions: Sessions, rooms: seq<Room>) {
    AtMostOneActiveRoom(rooms) && SearchingHaveNoRoom(sessions, rooms) && CanonicalRooms(rooms)
  }

  /** Ending rooms never breaks the invariant. */
  lemma OnlyEndsPreservesInv(sessions: Sessions, rooms: seq<Room>, rooms2: seq<Room>)
    requires StoreInv(sessions, rooms) && OnlyEnds(rooms, rooms2)
    ensures StoreInv(sessions, rooms2)
  {
    forall s, i, j | 0 <= i < |rooms2| && 0 <= j < |rooms2| &&
      rooms2[i].Active() && rooms2[j].Active() && rooms2[i].Involves(s) && rooms2[j].Involves(s)
      ensures i == j
    {
      assert rooms2[i] == rooms[i] && rooms2[j] == rooms[j];
    }
    forall s | s in sessions && sessions[s].status == Connecting ensures NoActiveRoomOf(rooms2, s) {
      forall i | 0 <= i < |rooms2| ensures !(rooms2[i].Active() && rooms2[i].Involves(s)) {
        if rooms2[i].Active() { assert rooms2[i] == rooms[i]; }
      }
    }
  }

  /**
   * A status change keeps the invariant unless it puts a session that is
   * in an active room back to `connecting`.
   */
  lemma SetStatusPreservesInv(sessions: Sessions, rooms: seq<Room>, id: string, status: Status, now: Option<int>)
    requires StoreInv(sessions, rooms)
    requires status == Connecting ==> NoActiveRoomOf(rooms, id)
    ensures StoreInv(SetStatus(sessions, id, status, now), rooms)
  {
    var r := SetStatus(sessions, id, status, now);
    forall s | s in r && r[s].status == Connecting ensures NoActiveRoomOf(rooms, s) {
      if s != id { assert r[s] == sessions[s]; }
    }
  }

  /** Under the invariant, the room lookup of a session finds the one active room it is in. */
  lemma FirstActiveIsTheActiveRoom(sessions: Sessions, rooms: seq<Room>, id: string, k: nat)
    requires StoreInv(sessions, rooms)
    requires k < |rooms| && rooms[k].Active() && rooms[k].Involves(id)
    ensures FirstActiveRoomOf(rooms, id) == Some(k)
  {
    var r := FirstActiveRoomOf(rooms, id);
    assert !NoActiveRoomOf(rooms, id);
    assert r.Some? && rooms[r.value].Active() && rooms[r.value].Involves(id);
  }

  function NewRoom(pair: (string, string), now: int): Room {
    Room(pair.0, pair.1, now, None)
  }

  /** A new room for two different sessions is active, holds both, and shows each the other. */
  lemma NewRoomPartners(a: string, b: string, now: int)
    requires a != b
    ensures var room := NewRoom(Canonical(a, b), now);
            && room.Active() && room.Involves(a) && room.Involves(b)
            && PartnerOf(room, a) == b && PartnerOf(room, b) == a
  {
    var pair := Canonical(a, b);
    assert pair.0 in {a, b} && pair.1 in {a, b} && pair.0 != pair.1 by {
      assert pair.0 in {pair.0, pair.1} && pair.1 in {pair.0, pair.1};
      assert a in {pair.0, pair.1} && b in {pair.0, pair.1};
    }
  }

  /**
   * Creating a room for two different sessions keeps the invariant when
   * neither is already in an active room and neither is still searching.
   */
  lemma AddRoomPreservesInv(sessions: Sessions, rooms: seq<Room>, a: string, b: string, now: int)
    requires StoreInv(sessions, rooms)
    requires a != b && NoActiveRoomOf(rooms, a) && NoActiveRoomOf(rooms, b)
    requires a in sessions ==> sessions[a].status != Connecting
    requires b in sessions ==> sessions[b].status != Connecting
    ensures StoreInv(sessions, rooms + [NewRoom(Canonical(a, b), now)])
  {
    var room := NewRoom(Canonical(a, b), now);
    var rooms2 := rooms + [room];
    forall s, i, j | 0 <= i < |rooms2| && 0 <= j < |rooms2| &&
      rooms2[i].Active() && rooms2[j].Active() && rooms2[i].Involves(s) && rooms2[j].Involves(s)
      ensures i == j
    {
      if i < |rooms| && j < |rooms| {
        assert rooms2[i] == rooms[i] && rooms2[j] == rooms[j];
      }
    }
    forall s | s in sessions && sessions[s].status == Connecting ensures NoActiveRoomOf(rooms2, s) {
      forall i | 0 <= i < |rooms2| ensures !(rooms2[i].Active() && rooms2[i].Involves(s)) {
        if i < |rooms| { assert rooms2[i] == rooms[i]; } else { assert s != a && s != b; }
      }
    }
  }

  // ------------------------------------------------------------------- store

  /**
   * The shared store. Each method is one table call; `ok` is the outcome the
   * backend reports, and a failed call changes nothing.
   */
  class Store {
    var sessions: Sessions
    var rooms: seq<Room>
    var messages: seq<StoredMessage>

    constructor ()
      ensures sessions == map[] && rooms == [] && messages == []
    {
      sessions, rooms, messages := map[], [], [];
    }

    ghost predicate Inv()
      reads this
    {
      StoreInv(sessions, rooms)
    }

    /** `insert({username, session_id, status: 'waiting'})` (ChatApp.tsx:277-283). */
    method InsertSession(id: string, username: string, now: int, ok: bool)
      requires id !in sessions
      modifies this
      ensures sessions == if ok then old(sessions)[id := Session(username, Waiting, now)] else old(sessions)
      ensures rooms == old(rooms) && messages == old(messages)
      ensures old(Inv()) ==> Inv()
    {
      if ok {
        sessions := sessions[id := Session(username, Waiting, now)];
      }
    }

    method UpdateStatus(id: string, status: Status, now: Option<int>, ok: bool)
      modifies this
      ensures sessions == if ok then SetStatus(old(sessions), id, status, now) else old(sessions)
      ensures rooms == old(rooms) && messages == old(messages)
      ensures old(Inv()) && (ok && status == Connecting ==> NoActiveRoomOf(rooms, id)) ==> Inv()
    {
      if ok {
        if Inv() && (status == Connecting ==> NoActiveRoomOf(rooms, id)) {
          SetStatusPreservesInv(sessions, rooms, id, status, now);
        }
        sessions := SetStatus(sessions, id, status, now);
      }
    }

    method UpdateStatusIf(id: string, expected: Status, status: Status, now: Option<int>, ok: bool)
      requires status != Connecting
      modifies this
      ensures sessions == if ok then SetStatusIf(old(sessions), id, expected, status, now) else old(sessions)
      ensures rooms == old(rooms) && messages == old(messages)
      ensures old(Inv()) ==> Inv()
    {
      if ok {
        if Inv() {
          SetStatusPreservesInv(sessions, rooms, id, status, now);
        }
        sessions := SetStatusIf(sessions, id, expected, status, now);
      }
    }

    method EndActiveRoomsOf(id: string, now: int, ok: bool)
      modifies this
      ensures rooms == if ok then EndRoomsOf(old(rooms), id, now) else old(rooms)
      ensures sessions == old(sessions) && messages == old(messages)
      ensures old(Inv()) ==> Inv()
    {
      if ok {
        if Inv() {
          OnlyEndsPreservesInv(sessions, rooms, EndRoomsOf(rooms, id, now));
        }
        rooms := EndRoomsOf(rooms, id, now);
      }
    }

    method SweepStaleRooms(now: int, ok: bool)
      modifies this
      ensures rooms == if ok then SweepStale(old(rooms), now) else old(rooms)
      ensures sessions == old(sessions) && messages == old(messages)
      ensures old(Inv()) ==> Inv()
    {
      if ok {
        if Inv() {
          OnlyEndsPreservesInv(sessions, rooms, SweepStale(rooms, now));
        }
        rooms := SweepStale(rooms, now);
      }
    }

    /** `update({ended_at: now}).eq('id', room)` (ChatApp.tsx:516-521). */
    method EndRoom(room: nat, now: int, ok: bool)
      requires room < |rooms| && rooms[room].Active()
      modifies this
      ensures rooms == if ok then old(rooms)[room := EndAt(old(rooms)[room], now)] else old(rooms)
      ensures sessions == old(sessions) && messages == old(messages)
      ensures old(Inv()) ==> Inv()
    {
      if ok {
        var rooms2 := rooms[room := EndAt(rooms[room], now)];
        if Inv() {
          OnlyEndsPreservesInv(sessions, rooms, rooms2);
        }
        rooms := rooms2;
      }
    }

    /** `insert({user1_session_id, user2_session_id, created_at})`; the new row's id is returned. */
    method InsertRoom(pair: (string, string), now: int, ok: bool) returns (id: Option<nat>)
      modifies this
      ensures rooms == if ok then old(rooms) + [NewRoom(pair, now)] else old(rooms)
      ensures id == if ok then Some(|old(rooms)|) else None
      ensures sessions == old(sessions) && messages == old(messages)
    {
      if ok {
        id := Some(|rooms|);
        rooms := rooms + [NewRoom(pair, now)];
      } else {
        id := None;
      }
    }

    method InsertMessage(m: StoredMessage, ok: bool)
      modifies this
      ensures messages == if ok then old(messages) + [m] else old(messages)
      ensures sessions == old(sessions) && rooms == old(rooms)
    {
      if ok {
        messages := messages + [m];
      }
    }
  }
}
