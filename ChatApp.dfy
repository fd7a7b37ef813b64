/**
 * One chat client (the `ChatApp` component): its local state and the
 * handlers that drive the matchmaking protocol against the shared store,
 * one store call after another in the order the component issues them.
 * Realtime events and timer expiries are methods the environment calls.
 */
module ChatApp {
  import opened Wrappers
  import opened Text
  import opened ChatStore

  datatype ChatState = Login | Waiting | Searching | Connected

  datatype Sender = User | Partner

  /** A message in the local transcript (its id and timestamp are not modelled). */
  datatype ChatMessage = ChatMessage(text: string, sender: Sender, username: string)

  /** `maxLength` of the username input (ChatApp.tsx:668). */
  const MaxUsernameLength: nat := 20
  /** `maxLength` of the message input (ChatApp.tsx:826). */
  const MaxMessageLength: nat := 500

  /** What an input with a `maxLength` keeps of a value typed or pasted into it. */
  function Truncate(s: string, max: nat): (r: string)
    ensures |r| <= max && |r| <= |s| && r == s[..|r|]
    ensures |s| <= max ==> r == s
    ensures |s| > max ==> |r| == max
  {
    if |s| <= max then s else s[..max]
  }

  /** The searching indicator: "" -> "." -> ".." -> "..." -> "" (ChatApp.tsx:45-48). */
  function NextDots(prev: string): (next: string)
    ensures prev in {"", ".", ".."} ==> |next| == |prev| + 1 && next[..|prev|] == prev
    ensures prev == "..." ==> next == ""
  {
    if prev == "..." then "" else prev + "."
  }

  /** Four ticks bring the indicator back to where it started. */
  lemma DotsCycle(s: string)
    requires s in {"", ".", "..", "..."}
    ensures NextDots(s) in {"", ".", "..", "..."}
    ensures NextDots(NextDots(NextDots(NextDots(s)))) == s
  {
    assert "" + "." == "." && "." + "." == ".." && ".." + "." == "...";
  }

  /** Outcomes of the store calls of one pass through `handleConnect`. */
  datatype ConnectOutcomes = ConnectOutcomes(
    cleanupOk: bool,       // cleanupOldChats (ChatApp.tsx:328)
    endRoomsOk: bool,       // ending the caller's active rooms (331-337)
    setConnectingOk: bool,  // status := connecting (340-348)
    searchOk: bool,         // partner query (351-359)
    claimPartnerOk: bool,   // partner := matched if still connecting (366-376)
    setMatchedOk: bool,     // status := matched (379-385)
    createRoomOk: bool,     // room insert (388-398)
    requeueOk: bool,        // status := connecting again, nobody found (423-429)
    resetOk: bool)          // status := waiting in the outer catch (472-475)

  /**
   * The two calls whose failure the component does not check and whose
   * silent failure can break the store invariant.
   */
  predicate KeepsInvariant(o: ConnectOutcomes) {
    o.endRoomsOk && o.setMatchedOk
  }

  /** Every pass in `attempts` keeps the store invariant (see KeepsInvariant). */
  predicate AllKeepInvariant(attempts: seq<ConnectOutcomes>) {
    forall k :: 0 <= k < |attempts| ==> KeepsInvariant(attempts[k])
  }

  lemma AllKeepInvariantTail(attempts: seq<ConnectOutcomes>)
    requires attempts != []
    ensures AllKeepInvariant(attempts) ==> KeepsInvariant(attempts[0]) && AllKeepInvariant(attempts[1..])
  {
    assert forall k :: 0 <= k < |attempts| - 1 ==> attempts[1..][k] == attempts[k + 1];
  }

  datatype AttemptResult =
    | Matched(partner: string, partnerName: string)  // a room was created
    | Queued                                          // nobody else searching
    | Failed                                          // outer catch
    | Retry(candidate: string)                        // inner catch: `return handleConnect()`

  datatype DisconnectOutcomes = DisconnectOutcomes(lookupOk: bool, endRoomOk: bool, selfOk: bool, partnerOk: bool)

  datatype RoomEndedOutcomes = RoomEndedOutcomes(lookupOk: bool, selfOk: bool, partnerOk: bool)

  /** The rooms after the first two steps of a pass: the sweep, then ending the caller's rooms. */
  ghost function PreparedRooms(rooms: seq<Room>, self: string, now: int, o: ConnectOutcomes): seq<Room> {
    var swept := if o.cleanupOk then SweepStale(rooms, now) else rooms;
    if o.endRoomsOk then EndRoomsOf(swept, self, now) else swept
  }

  /** The sessions once the caller has (tried to) set itself to `connecting`. */
  ghost function SearchingSessions(sessions: Sessions, self: string, now: int, o: ConnectOutcomes): Sessions {
    if o.setConnectingOk then SetStatus(sessions, self, Connecting, Some(now)) else sessions
  }

  /** The two status updates of a successful match: partner first, then the caller. */
  ghost function MatchedSessions(sessions: Sessions, self: string, partner: string, now: int, o: ConnectOutcomes): Sessions {
    var claimed := SetStatus(sessions, partner, Status.Matched, Some(now));
    if o.setMatchedOk then SetStatus(claimed, self, Status.Matched, Some(now)) else claimed
  }

  /** Both members of a room back to waiting, as a teardown issues them. */
  ghost function ReleasedSessions(sessions: Sessions, self: string, partner: string, now: int, selfOk: bool, partnerOk: bool): Sessions {
    var s1 := if selfOk then SetStatus(sessions, self, Status.Waiting, Some(now)) else sessions;
    if partner != "" && partnerOk then SetStatus(s1, partner, Status.Waiting, Some(now)) else s1
  }

  /**
   * How one pass of `handleConnect` takes the store from `(s0, r0)` to
   * `(s1, r1)` and what it reports, for the caller `self`.
   */
  ghost predicate PassOutcome(s0: Sessions, r0: seq<Room>, s1: Sessions, r1: seq<Room>,
                              self: string, now: int, o: ConnectOutcomes, r: AttemptResult) {
    var rooms := PreparedRooms(r0, self, now, o);
    var searching := SearchingSessions(s0, self, now, o);
    && (r.Failed? <==> !o.setConnectingOk || !o.searchOk)
    && (r.Failed? ==> r1 == rooms
                      && s1 == if o.resetOk then SetStatus(searching, self, Status.Waiting, None) else searching)
    && (!r.Failed? ==> SearchOutcome(searching, rooms, s1, r1, self, now, o, r))
  }

  /**
   * How the search and claim that follow a successful `connecting` update
   * take the store from `(searching, rooms)` to `(s1, r1)`.
   */
  ghost predicate SearchOutcome(searching: Sessions, rooms: seq<Room>, s1: Sessions, r1: seq<Room>,
                                self: string, now: int, o: ConnectOutcomes, r: AttemptResult) {
    && !r.Failed?
    && (r.Queued? ==> r1 == rooms && NoCandidate(searching, self)
                      && s1 == if o.requeueOk then SetStatus(searching, self, Connecting, Some(now)) else searching)
    && (r.Retry? ==> r1 == rooms && !NoCandidate(searching, self) && (!o.claimPartnerOk || !o.createRoomOk)
                     && IsOldestCandidate(searching, self, r.candidate)
                     && s1 == if o.claimPartnerOk then MatchedSessions(searching, self, r.candidate, now, o) else searching)
    && (r.Matched? ==> IsOldestCandidate(searching, self, r.partner)
                       && r.partnerName == searching[r.partner].username
                       && s1 == MatchedSessions(searching, self, r.partner, now, o)
                       && r1 == rooms + [NewRoom(Canonical(self, r.partner), now)])
  }

  /** The store as a retrying pass left it, and the candidate whose claim failed. */
  datatype RetryState = RetryState(sessions: Sessions, rooms: seq<Room>, candidate: string)

  /**
   * How the passes of `handleConnect` take the store from `(s0, r0)` to
   * `(s1, r1)`. `retries` holds what each pass before the last one left:
   * each of them is a retry, and the last pass gives the result `r`,
   * which is a retry only when no outcomes are left.
   */
  ghost predicate ConnectTrace(s0: Sessions, r0: seq<Room>, s1: Sessions, r1: seq<Room>, self: string, now: int,
                               attempts: seq<ConnectOutcomes>, retries: seq<RetryState>, r: AttemptResult)
    decreases |attempts|
  {
    && |retries| < |attempts|
    && if retries == [] then
         && (|attempts| == 1 || !r.Retry?)
         && PassOutcome(s0, r0, s1, r1, self, now, attempts[0], r)
       else
         var m := retries[0];
         && PassOutcome(s0, r0, m.sessions, m.rooms, self, now, attempts[0], Retry(m.candidate))
         && ConnectTrace(m.sessions, m.rooms, s1, r1, self, now, attempts[1..], retries[1..], r)
  }

  /** A pass that gives a final result, or uses up the outcomes, is the whole trace. */
  lemma ConnectTraceLast(s0: Sessions, r0: seq<Room>, s1: Sessions, r1: seq<Room>,
                         self: string, now: int, attempts: seq<ConnectOutcomes>, r: AttemptResult)
    requires attempts != [] && (|attempts| == 1 || !r.Retry?)
    requires PassOutcome(s0, r0, s1, r1, self, now, attempts[0], r)
    ensures ConnectTrace(s0, r0, s1, r1, self, now, attempts, [], r)
  {
  }

  /** A retrying pass followed by the trace of the remaining passes is a trace. */
  lemma ConnectTraceRetry(s0: Sessions, r0: seq<Room>, s1: Sessions, r1: seq<Room>, self: string, now: int,
                          attempts: seq<ConnectOutcomes>, first: RetryState, rest: seq<RetryState>, r: AttemptResult)
    requires |attempts| > 1
    requires PassOutcome(s0, r0, first.sessions, first.rooms, self, now, attempts[0], Retry(first.candidate))
    requires ConnectTrace(first.sessions, first.rooms, s1, r1, self, now, attempts[1..], rest, r)
    ensures ConnectTrace(s0, r0, s1, r1, self, now, attempts, [first] + rest, r)
  {
    assert ([first] + rest)[1..] == rest;
  }

  /**
   * What one pass does to the rooms: earlier rooms are only ended, and a
   * match appends one room for the caller and a different partner, in
   * canonical order. After a successful room-ending call the caller has
   * no other active room.
   */
  lemma PassRooms(s0: Sessions, r0: seq<Room>, s1: Sessions, r1: seq<Room>,
                  self: string, now: int, o: ConnectOutcomes, r: AttemptResult)
    requires PassOutcome(s0, r0, s1, r1, self, now, o, r)
    ensures |r1| == |r0| + (if r.Matched? then 1 else 0)
    ensures OnlyEnds(r0, r1[..|r0|])
    ensures r.Matched? ==> r.partner != self && r1[|r1| - 1] == NewRoom(Canonical(self, r.partner), now)
    ensures r.Matched? && o.endRoomsOk ==> NoActiveRoomOf(r1[..|r1| - 1], self)
  {
    PreparedOnlyEnds(r0, self, now, o);
    var rooms := PreparedRooms(r0, self, now, o);
    if r.Matched? {
      assert r1[..|r1| - 1] == rooms;
    } else {
      assert r1[..|r0|] == r1;
    }
  }

  /**
   * What a whole run of passes does to the rooms: the same as one pass,
   * with the caller left without another active room when every pass
   * ended its rooms successfully.
   */
  lemma {:induction false} ConnectTraceRooms(s0: Sessions, r0: seq<Room>, s1: Sessions, r1: seq<Room>, self: string, now: int,
                                             attempts: seq<ConnectOutcomes>, retries: seq<RetryState>, r: AttemptResult)
    requires ConnectTrace(s0, r0, s1, r1, self, now, attempts, retries, r)
    ensures |r1| == |r0| + (if r.Matched? then 1 else 0)
    ensures OnlyEnds(r0, r1[..|r0|])
    ensures r.Matched? ==> r.partner != self && r1[|r1| - 1] == NewRoom(Canonical(self, r.partner), now)
    ensures r.Matched? && (forall k :: 0 <= k < |attempts| ==> attempts[k].endRoomsOk) ==>
              NoActiveRoomOf(r1[..|r1| - 1], self)
    decreases |attempts|
  {
    if retries == [] {
      PassRooms(s0, r0, s1, r1, self, now, attempts[0], r);
    } else {
      var m := retries[0];
      PassRooms(s0, r0, m.sessions, m.rooms, self, now, attempts[0], Retry(m.candidate));
      ConnectTraceRooms(m.sessions, m.rooms, s1, r1, self, now, attempts[1..], retries[1..], r);
      assert forall k :: 0 <= k < |attempts| - 1 ==> attempts[1..][k] == attempts[k + 1];
      assert m.rooms[..|r0|] == m.rooms;
      OnlyEndsTransitive(r0, m.rooms, r1[..|r0|]);
    }
  }

  /** A pass in which nobody else is connecting queues the caller. */
  lemma PassWithoutCandidateQueues(s0: Sessions, r0: seq<Room>, s1: Sessions, r1: seq<Room>,
                                   self: string, now: int, o: ConnectOutcomes, r: AttemptResult)
    requires PassOutcome(s0, r0, s1, r1, self, now, o, r)
    requires o.setConnectingOk && o.searchOk
    requires forall q :: q in s0 && q != self ==> s0[q].status != Connecting
    ensures r.Queued?
  {
    var searching := SearchingSessions(s0, self, now, o);
    assert NoCandidate(searching, self);
  }

  /**
   * A pass in which exactly one other session is connecting, with every
   * store call succeeding, matches the caller with that session.
   */
  lemma PassWithOneCandidateMatches(s0: Sessions, r0: seq<Room>, s1: Sessions, r1: seq<Room>,
                                    self: string, other: string, now: int, o: ConnectOutcomes, r: AttemptResult)
    requires PassOutcome(s0, r0, s1, r1, self, now, o, r)
    requires o.setConnectingOk && o.searchOk && o.claimPartnerOk && o.createRoomOk
    requires other in s0 && other != self && s0[other].status == Connecting
    requires forall q :: q in s0 && q != self && q != other ==> s0[q].status != Connecting
    ensures r.Matched? && r.partner == other && r.partnerName == s0[other].username
  {
    var searching := SearchingSessions(s0, self, now, o);
    assert searching[other] == s0[other];
    assert !NoCandidate(searching, self);
  }

  lemma OnlyEndsTransitive(a: seq<Room>, b: seq<Room>, c: seq<Room>)
    requires OnlyEnds(a, b) && OnlyEnds(b, c)
    ensures OnlyEnds(a, c)
  {
  }

  lemma PreparedOnlyEnds(rooms: seq<Room>, self: string, now: int, o: ConnectOutcomes)
    ensures OnlyEnds(rooms, PreparedRooms(rooms, self, now, o))
    ensures o.endRoomsOk ==> NoActiveRoomOf(PreparedRooms(rooms, self, now, o), self)
  {
    var swept := if o.cleanupOk then SweepStale(rooms, now) else rooms;
    assert OnlyEnds(rooms, swept);
    if o.endRoomsOk {
      OnlyEndsTransitive(rooms, swept, EndRoomsOf(swept, self, now));
    }
  }

  class ChatClient {
    const store: Store
    var chatState: ChatState
    var username: string          // the username input
    var sessionId: string
    var roomId: Option<nat>       // None stands for the empty room id
    var partnerUsername: string
    var messages: seq<ChatMessage>
    var currentMessage: string    // the message input
    var searchingDots: string
    var isConnecting: bool

    constructor (store: Store)
      ensures this.store == store
      ensures chatState == ChatState.Login && username == "" && sessionId == "" && roomId == None
      ensures partnerUsername == "" && messages == [] && currentMessage == ""
      ensures searchingDots == "" && !isConnecting
    {
      this.store := store;
      chatState, username, sessionId, roomId := ChatState.Login, "", "", None;
      partnerUsername, messages, currentMessage := "", [], "";
      searchingDots, isConnecting := "", false;
    }

    method EditUsername(s: string)
      modifies this`username
      ensures username == Truncate(s, MaxUsernameLength)
    {
      username := Truncate(s, MaxUsernameLength);
    }

    method EditMessage(s: string)
      modifies this`currentMessage
      ensures currentMessage == Truncate(s, MaxMessageLength)
    {
      currentMessage := Truncate(s, MaxMessageLength);
    }

    /**
     * `handleLogin` (ChatApp.tsx:271-306). `newId` is the generated session
     * id; the id is taken even when the insert then fails.
     */
    method Login(newId: string, now: int, ok: bool)
      requires newId != "" && newId !in store.sessions
      modifies this`sessionId, this`chatState, store
      ensures |Trim(username)| < 2 ==>
                sessionId == old(sessionId) && chatState == old(chatState) && store.sessions == old(store.sessions)
      ensures |Trim(username)| >= 2 ==> sessionId == newId
      ensures |Trim(username)| >= 2 ==>
                store.sessions == if ok then old(store.sessions)[newId := Session(Trim(username), Status.Waiting, now)]
                                  else old(store.sessions)
      ensures |Trim(username)| >= 2 ==> chatState == if ok then ChatState.Waiting else old(chatState)
      ensures store.rooms == old(store.rooms) && store.messages == old(store.messages)
      ensures old(store.Inv()) ==> store.Inv()
    {
      var name := Trim(username);
      if |name| >= 2 {
        sessionId := newId;
        store.InsertSession(newId, name, now, ok);
        if ok {
          chatState := ChatState.Waiting;
        }
      }
    }

    /** `cleanupOldChats` (ChatApp.tsx:309-320); its error is not checked. */
    method CleanupOldChats(now: int, ok: bool)
      modifies store
      ensures store.rooms == if ok then SweepStale(old(store.rooms), now) else old(store.rooms)
      ensures store.sessions == old(store.sessions) && store.messages == old(store.messages)
      ensures old(store.Inv()) ==> store.Inv()
    {
      store.SweepStaleRooms(now, ok);
    }

    /**
     * `handleConnect` (ChatApp.tsx:322-485). Each element of `attempts`
     * gives the outcomes of one pass; a pass that ends in the inner catch
     * starts the next one (ChatApp.tsx:419) while any are left.
     */
    method Connect(now: int, attempts: seq<ConnectOutcomes>) returns (r: AttemptResult, ghost retries: seq<RetryState>)
      requires attempts != []
      modifies this`chatState, this`isConnecting, this`roomId, this`partnerUsername, this`messages, store
      ensures ConnectTrace(old(store.sessions), old(store.rooms), store.sessions, store.rooms, sessionId, now, attempts, retries, r)
      ensures chatState == if r.Matched? then Connected else Searching
      ensures isConnecting == r.Retry?
      ensures r.Matched? ==> roomId == Some(|store.rooms| - 1) && partnerUsername == r.partnerName && messages == []
      ensures !r.Matched? ==>
                roomId == old(roomId) && partnerUsername == old(partnerUsername) && messages == old(messages)
      ensures store.messages == old(store.messages)
      ensures old(store.Inv()) && AllKeepInvariant(attempts) ==> store.Inv()
      decreases |attempts|
    {
      r := Attempt(now, attempts[0]);
      retries := [];
      if r.Retry? && |attempts| > 1 {
        ghost var first := RetryState(store.sessions, store.rooms, r.candidate);
        ghost var rest;
        AllKeepInvariantTail(attempts);
        r, rest := Connect(now, attempts[1..]);
        retries := [first] + rest;
        ConnectTraceRetry(old(store.sessions), old(store.rooms), store.sessions, store.rooms, sessionId, now,
                          attempts, first, rest, r);
      } else {
        ConnectTraceLast(old(store.sessions), old(store.rooms), store.sessions, store.rooms, sessionId, now, attempts, r);
      }
    }

    /**
     * The first three steps of a pass (ChatApp.tsx:327-348): sweep stale
     * rooms, end the caller's active rooms, then mark the caller as
     * connecting.
     */
    method Prepare(now: int, o: ConnectOutcomes)
      modifies store
      ensures store.rooms == PreparedRooms(old(store.rooms), sessionId, now, o)
      ensures store.sessions == SearchingSessions(old(store.sessions), sessionId, now, o)
      ensures store.messages == old(store.messages)
      ensures OnlyEnds(old(store.rooms), store.rooms)
      ensures o.endRoomsOk ==> NoActiveRoomOf(store.rooms, sessionId)
      ensures old(store.Inv()) && o.endRoomsOk ==> store.Inv()
    {
      PreparedOnlyEnds(store.rooms, sessionId, now, o);
      store.SweepStaleRooms(now, o.cleanupOk);
      store.EndActiveRoomsOf(sessionId, now, o.endRoomsOk);
      store.UpdateStatus(sessionId, Connecting, Some(now), o.setConnectingOk);
    }

    /**
     * Claiming the partner that the search found (ChatApp.tsx:366-398):
     * the partner becomes matched if still connecting, then the caller,
     * then the room is created. `None` means the inner catch is reached.
     */
    method Claim(partner: string, now: int, o: ConnectOutcomes) returns (room: Option<nat>)
      requires IsOldestCandidate(store.sessions, sessionId, partner)
      modifies store
      ensures room.Some? <==> o.claimPartnerOk && o.createRoomOk
      ensures room.Some? ==>
                && store.sessions == MatchedSessions(old(store.sessions), sessionId, partner, now, o)
                && store.rooms == old(store.rooms) + [NewRoom(Canonical(sessionId, partner), now)]
                && room == Some(|old(store.rooms)|)
      ensures room.None? ==> store.rooms == old(store.rooms)
      ensures room.None? ==>
                store.sessions == if o.claimPartnerOk then MatchedSessions(old(store.sessions), sessionId, partner, now, o)
                                  else old(store.sessions)
      ensures store.messages == old(store.messages)
      ensures old(store.Inv()) && NoActiveRoomOf(old(store.rooms), sessionId) && o.setMatchedOk ==>
                store.Inv()
    {
      store.UpdateStatusIf(partner, Connecting, Status.Matched, Some(now), o.claimPartnerOk);
      if !o.claimPartnerOk {
        return None;
      }
      store.UpdateStatus(sessionId, Status.Matched, Some(now), o.setMatchedOk);
      ghost var roomsBefore := store.rooms;
      room := store.InsertRoom(Canonical(sessionId, partner), now, o.createRoomOk);
      if room.Some? && old(store.Inv()) && NoActiveRoomOf(old(store.rooms), sessionId) && o.setMatchedOk {
        assert NoActiveRoomOf(roomsBefore, partner);
        AddRoomPreservesInv(store.sessions, roomsBefore, sessionId, partner, now);
      }
    }

    /**
     * One invocation of `handleConnect` up to the point where the inner
     * catch would call it again: the flags are set, the outer `try` and its
     * catch run, and `isConnecting` is cleared unless a retry follows.
     */
    method Attempt(now: int, o: ConnectOutcomes) returns (r: AttemptResult)
      modifies this`chatState, this`isConnecting, this`roomId, this`partnerUsername, this`messages, store
      ensures PassOutcome(old(store.sessions), old(store.rooms), store.sessions, store.rooms, sessionId, now, o, r)
      ensures chatState == if r.Matched? then Connected else Searching
      ensures isConnecting == r.Retry?
      ensures |store.rooms| == |old(store.rooms)| + (if r.Matched? then 1 else 0)
      ensures OnlyEnds(old(store.rooms), store.rooms[..|old(store.rooms)|])
      ensures r.Matched? ==>
                && r.partner != sessionId
                && store.rooms[|store.rooms| - 1] == NewRoom(Canonical(sessionId, r.partner), now)
                && roomId == Some(|store.rooms| - 1)
      ensures r.Matched? && o.endRoomsOk ==> NoActiveRoomOf(store.rooms[..|store.rooms| - 1], sessionId)
      ensures r.Matched? ==> partnerUsername == r.partnerName && messages == []
      ensures !r.Matched? ==>
                roomId == old(roomId) && partnerUsername == old(partnerUsername) && messages == old(messages)
      ensures store.messages == old(store.messages)
      ensures old(store.Inv()) && KeepsInvariant(o) ==> store.Inv()
    {
      isConnecting := true;
      chatState := Searching;
      r := TryPass(now, o);
      if !r.Retry? {
        isConnecting := false;
      }
    }

    /** The outer `try` of `handleConnect` and its catch (ChatApp.tsx:326-482). */
    method TryPass(now: int, o: ConnectOutcomes) returns (r: AttemptResult)
      modifies this`chatState, this`roomId, this`partnerUsername, this`messages, store
      ensures PassOutcome(old(store.sessions), old(store.rooms), store.sessions, store.rooms, sessionId, now, o, r)
      ensures |store.rooms| == |old(store.rooms)| + (if r.Matched? then 1 else 0)
      ensures OnlyEnds(old(store.rooms), store.rooms[..|old(store.rooms)|])
      ensures r.Matched? ==>
                && r.partner != sessionId
                && store.rooms[|store.rooms| - 1] == NewRoom(Canonical(sessionId, r.partner), now)
                && roomId == Some(|store.rooms| - 1)
      ensures r.Matched? && o.endRoomsOk ==> NoActiveRoomOf(store.rooms[..|store.rooms| - 1], sessionId)
      ensures r.Matched? ==> chatState == Connected && partnerUsername == r.partnerName && messages == []
      ensures !r.Matched? ==>
                chatState == old(chatState) && roomId == old(roomId)
                && partnerUsername == old(partnerUsername) && messages == old(messages)
      ensures store.messages == old(store.messages)
      ensures old(store.Inv()) && KeepsInvariant(o) ==> store.Inv()
    {
      Prepare(now, o);
      if !o.setConnectingOk || !o.searchOk {
        store.UpdateStatus(sessionId, Status.Waiting, None, o.resetOk);
        return Failed;
      }
      ghost var prepared := store.rooms;
      r := Search(now, o);
      assert store.rooms[..|old(store.rooms)|] == prepared;
    }

    /**
     * The rest of a pass once the caller is `connecting` (ChatApp.tsx:350-417):
     * look for the oldest other connecting session, queue the caller if
     * there is none, otherwise claim it and enter the new room.
     */
    method Search(now: int, o: ConnectOutcomes) returns (r: AttemptResult)
      modifies this`chatState, this`roomId, this`partnerUsername, this`messages, store
      ensures SearchOutcome(old(store.sessions), old(store.rooms), store.sessions, store.rooms, sessionId, now, o, r)
      ensures |store.rooms| == |old(store.rooms)| + (if r.Matched? then 1 else 0)
      ensures store.rooms[..|old(store.rooms)|] == old(store.rooms)
      ensures r.Matched? ==>
                && r.partner != sessionId
                && roomId == Some(|store.rooms| - 1)
                && chatState == Connected && partnerUsername == r.partnerName && messages == []
      ensures !r.Matched? ==>
                chatState == old(chatState) && roomId == old(roomId)
                && partnerUsername == old(partnerUsername) && messages == old(messages)
      ensures store.messages == old(store.messages)
      ensures old(store.Inv()) && NoActiveRoomOf(old(store.rooms), sessionId) && o.setMatchedOk ==> store.Inv()
    {
      var found := SelectOldestConnecting(store.sessions, sessionId);
      if found.None? {
        store.UpdateStatus(sessionId, Connecting, Some(now), o.requeueOk);
        return Queued;
      }
      var partner := found.value;
      var partnerName := store.sessions[partner].username;
      var room := Claim(partner, now, o);
      if room.None? {
        return Retry(partner);
      }
      assert store.rooms[..|store.rooms| - 1] == old(store.rooms);
      roomId := room;
      partnerUsername := partnerName;
      chatState := Connected;
      messages := [];
      return AttemptResult.Matched(partner, partnerName);
    }

    /**
     * The search timeout armed at ChatApp.tsx:432-456: it reads the
     * caller's status and reverts it to waiting only if it is still
     * connecting.
     */
    method OnSearchTimeout(now: int, lookupOk: bool, updateOk: bool)
      modifies this`chatState, store
      ensures var fires := lookupOk && sessionId in old(store.sessions)
                           && old(store.sessions)[sessionId].status == Connecting;
              && (fires ==> chatState == ChatState.Waiting
                            && store.sessions == if updateOk then SetStatus(old(store.sessions), sessionId, Status.Waiting, Some(now))
                                                 else old(store.sessions))
              && (!fires ==> chatState == old(chatState) && store.sessions == old(store.sessions))
      ensures store.rooms == old(store.rooms) && store.messages == old(store.messages)
      ensures old(store.Inv()) ==> store.Inv()
    {
      if lookupOk && sessionId in store.sessions && store.sessions[sessionId].status == Connecting {
        store.UpdateStatus(sessionId, Status.Waiting, Some(now), updateOk);
        chatState := ChatState.Waiting;
      }
    }

    /**
     * The 30-second timer of the `searching` effect (ChatApp.tsx:54-77):
     * while the client is still searching it stops the search, whatever
     * the store says about the caller.
     */
    method OnSearchingTimerElapsed(ok: bool)
      modifies this`chatState, store
      ensures old(chatState) == Searching ==>
                chatState == ChatState.Waiting
                && store.sessions == if ok then SetStatus(old(store.sessions), sessionId, Status.Waiting, None)
                                     else old(store.sessions)
      ensures old(chatState) != Searching ==> chatState == old(chatState) && store.sessions == old(store.sessions)
      ensures store.rooms == old(store.rooms) && store.messages == old(store.messages)
      ensures old(store.Inv()) ==> store.Inv()
    {
      if chatState == Searching {
        StopSearching(ok);
      }
    }

    /** `handleStopSearching` (ChatApp.tsx:579-601): the update's error is not checked. */
    method StopSearching(ok: bool)
      modifies this`chatState, store
      ensures chatState == ChatState.Waiting
      ensures store.sessions == if ok then SetStatus(old(store.sessions), sessionId, Status.Waiting, None)
                                else old(store.sessions)
      ensures store.rooms == old(store.rooms) && store.messages == old(store.messages)
      ensures old(store.Inv()) ==> store.Inv()
    {
      store.UpdateStatus(sessionId, Status.Waiting, None, ok);
      chatState := ChatState.Waiting;
    }

    /** Whether a `matched` update finds this client waiting or searching, with an active room to enter. */
    predicate EntersOnMatch(newStatus: Status, lookupOk: bool)
      reads this, store
    {
      && (chatState == ChatState.Waiting || chatState == Searching) && sessionId != ""
      && newStatus == Status.Matched && lookupOk && FirstActiveRoomOf(store.rooms, sessionId).Some?
    }

    /**
     * The update event on the caller's own session row (ChatApp.tsx:93-132),
     * delivered while the client is waiting or searching. Once the new
     * status is `matched` the client looks up its active room and the
     * partner's name and enters the chat.
     */
    method OnSelfMatched(newStatus: Status, lookupOk: bool, nameLookupOk: bool)
      modifies this`chatState, this`roomId, this`partnerUsername, this`messages
      ensures old(EntersOnMatch(newStatus, lookupOk)) ==>
                var found := FirstActiveRoomOf(store.rooms, sessionId);
                && chatState == Connected && roomId == found && messages == []
                && partnerUsername == DisplayName(store.sessions, PartnerOf(store.rooms[found.value], sessionId), nameLookupOk)
      ensures !old(EntersOnMatch(newStatus, lookupOk)) ==>
                chatState == old(chatState) && roomId == old(roomId)
                && partnerUsername == old(partnerUsername) && messages == old(messages)
      ensures chatState == Connected && old(chatState) != Connected ==>
                roomId.Some? && roomId.value < |store.rooms|
                && store.rooms[roomId.value].Active() && store.rooms[roomId.value].Involves(sessionId)
    {
      if (chatState == ChatState.Waiting || chatState == Searching) && sessionId != ""
         && newStatus == Status.Matched && lookupOk
      {
        var found := FirstActiveRoomOf(store.rooms, sessionId);
        if found.Some? {
          var partner := PartnerOf(store.rooms[found.value], sessionId);
          roomId := found;
          partnerUsername := DisplayName(store.sessions, partner, nameLookupOk);
          chatState := Connected;
          messages := [];
        }
      }
    }

    /**
     * `handleSendMessage` (ChatApp.tsx:603-635): a non-blank message in a
     * connected room is stored trimmed and appended to the transcript once;
     * on an insert error nothing changes.
     */
    method SendMessage(ok: bool)
      modifies this`messages, this`currentMessage, store
      ensures var sends := !IsBlank(old(currentMessage)) && chatState == Connected && roomId.Some?;
              && (sends && ok ==>
                    && store.messages == old(store.messages) + [StoredMessage(roomId.value, sessionId, Trim(old(currentMessage)))]
                    && messages == old(messages) + [ChatMessage(Trim(old(currentMessage)), User, username)]
                    && currentMessage == "")
              && (!(sends && ok) ==>
                    store.messages == old(store.messages) && messages == old(messages)
                    && currentMessage == old(currentMessage))
      ensures store.sessions == old(store.sessions) && store.rooms == old(store.rooms)
    {
      if !IsBlank(currentMessage) && chatState == Connected && roomId.Some? {
        var text := Trim(currentMessage);
        store.InsertMessage(StoredMessage(roomId.value, sessionId, text), ok);
        if ok {
          messages := messages + [ChatMessage(text, User, username)];
          currentMessage := "";
        }
      }
    }

    /**
     * An insert event on the messages of the current room (ChatApp.tsx:157-179):
     * a message from anyone but this session is appended at the end.
     */
    method OnIncomingMessage(m: StoredMessage, nameLookupOk: bool)
      modifies this`messages
      ensures messages ==
                if chatState == Connected && roomId == Some(m.room) && m.sender != sessionId
                then old(messages) + [ChatMessage(m.text, Partner, DisplayName(store.sessions, m.sender, nameLookupOk))]
                else old(messages)
    {
      if chatState == Connected && roomId == Some(m.room) && m.sender != sessionId {
        var name := DisplayName(store.sessions, m.sender, nameLookupOk);
        messages := messages + [ChatMessage(m.text, Partner, name)];
      }
    }

    /**
     * An update event on the current room (ChatApp.tsx:194-250): once the
     * room has an end time, both members go back to waiting and the local
     * chat is cleared. A failed room lookup leaves everything as it was.
     */
    method OnRoomEnded(endedAt: Option<int>, now: int, o: RoomEndedOutcomes)
      modifies this`chatState, this`partnerUsername, this`messages, this`roomId, store
      ensures var handles := old(chatState) == Connected && old(roomId).Some? && endedAt.Some?
                             && o.lookupOk && old(roomId).value < |store.rooms|;
              && (handles ==>
                    && chatState == ChatState.Waiting && partnerUsername == "" && messages == [] && roomId == None
                    && store.sessions == ReleasedSessions(old(store.sessions), sessionId,
                                           PartnerOf(store.rooms[old(roomId).value], sessionId), now, o.selfOk, o.partnerOk))
              && (!handles ==>
                    && chatState == old(chatState) && partnerUsername == old(partnerUsername)
                    && messages == old(messages) && roomId == old(roomId) && store.sessions == old(store.sessions))
      ensures store.rooms == old(store.rooms) && store.messages == old(store.messages)
      ensures old(store.Inv()) ==> store.Inv()
    {
      if chatState == Connected && roomId.Some? && endedAt.Some? && o.lookupOk && roomId.value < |store.rooms| {
        var other := PartnerOf(store.rooms[roomId.value], sessionId);
        store.UpdateStatus(sessionId, Status.Waiting, Some(now), o.selfOk);
        if other != "" {
          store.UpdateStatus(other, Status.Waiting, Some(now), o.partnerOk);
        }
        chatState := ChatState.Waiting;
        partnerUsername := "";
        messages := [];
        roomId := None;
      }
    }

    /**
     * `handleDisconnect` (ChatApp.tsx:488-577). Every path, the error paths
     * included, ends with the local chat cleared. The store is touched only
     * when the room exists and is still active: then it is ended and both
     * members go back to waiting.
     */
    method Disconnect(now: int, o: DisconnectOutcomes)
      modifies this`chatState, this`partnerUsername, this`messages, this`roomId, store
      ensures chatState == ChatState.Waiting && partnerUsername == "" && messages == [] && roomId == None
      ensures var ends := old(roomId).Some? && o.lookupOk && old(roomId).value < |old(store.rooms)|
                          && old(store.rooms)[old(roomId).value].Active() && o.endRoomOk;
              && (ends ==>
                    var id := old(roomId).value;
                    && store.rooms == old(store.rooms)[id := EndAt(old(store.rooms)[id], now)]
                    && store.sessions == ReleasedSessions(old(store.sessions), sessionId,
                                           PartnerOf(old(store.rooms)[id], sessionId), now, o.selfOk, o.partnerOk))
              && (!ends ==> store.rooms == old(store.rooms) && store.sessions == old(store.sessions))
      ensures store.messages == old(store.messages)
      ensures old(store.Inv()) ==> store.Inv()
    {
      if roomId.None? {
        chatState := ChatState.Waiting;
        partnerUsername := "";
        messages := [];
        return;
      }
      var id := roomId.value;
      if o.lookupOk && id < |store.rooms| && store.rooms[id].Active() {
        var partner := PartnerOf(store.rooms[id], sessionId);
        store.EndRoom(id, now, o.endRoomOk);
        if o.endRoomOk {
          store.UpdateStatus(sessionId, Status.Waiting, Some(now), o.selfOk);
          if partner != "" {
            store.UpdateStatus(partner, Status.Waiting, Some(now), o.partnerOk);
          }
        }
      }
      chatState := ChatState.Waiting;
      partnerUsername := "";
      messages := [];
      roomId := None;
    }

    /** One tick of the 500 ms interval that animates the searching indicator. */
    method TickDots()
      modifies this`searchingDots
      ensures searchingDots == if chatState == Searching then NextDots(old(searchingDots)) else old(searchingDots)
    {
      if chatState == Searching {
        searchingDots := NextDots(searchingDots);
      }
    }
  }

  /** A new client on `store` that types `name` and logs in with the id `id`. */
  method LoggedInClient(store: Store, name: string, id: string, now: int) returns (c: ChatClient)
    requires 2 <= |name| <= MaxUsernameLength && !IsSpace(name[0]) && !IsSpace(name[|name| - 1])
    requires id != "" && id !in store.sessions
    modifies store
    ensures fresh(c) && c.store == store
    ensures c.sessionId == id && c.chatState == ChatState.Waiting
    ensures store.sessions == old(store.sessions)[id := Session(name, Status.Waiting, now)]
    ensures store.rooms == old(store.rooms) && store.messages == old(store.messages)
    ensures old(store.Inv()) ==> store.Inv()
  {
    c := new ChatClient(store);
    c.EditUsername(name);
    TrimKeeps(name);
    c.Login(id, now, true);
  }

  /** Two clients on a new store, logged in as "alice" and "bob". */
  method TwoClientsLoggedIn() returns (store: Store, a: ChatClient, b: ChatClient)
    ensures fresh(store) && fresh(a) && fresh(b) && a != b
    ensures a.store == store && b.store == store && store.Inv()
    ensures a.sessionId == "session_a" && b.sessionId == "session_b"
    ensures a.chatState == ChatState.Waiting && b.chatState == ChatState.Waiting && store.rooms == []
    ensures store.sessions == map["session_a" := Session("alice", Status.Waiting, 0),
                                  "session_b" := Session("bob", Status.Waiting, 1)]
  {
    store := new Store();
    assert store.Inv();
    a := LoggedInClient(store, "alice", "session_a", 0);
    assert "session_b" != "session_a" by { assert "session_b"[8] != "session_a"[8]; }
    b := LoggedInClient(store, "bob", "session_b", 1);
  }

  const AllSucceed := ConnectOutcomes(true, true, true, true, true, true, true, true, true)

  /** The only client looking for a partner finds nobody and is queued as `connecting`. */
  method FirstSearches(store: Store, a: ChatClient, now: int) returns (r: AttemptResult)
    requires a.store == store && store.Inv() && store.rooms == [] && a.sessionId in store.sessions
    requires forall q :: q in store.sessions && q != a.sessionId ==> store.sessions[q].status != Connecting
    modifies a, store
    ensures r.Queued? && a.chatState == Searching && a.sessionId == old(a.sessionId) && store.Inv()
    ensures store.rooms == []
    ensures store.sessions == SetStatus(old(store.sessions), a.sessionId, Connecting, Some(now))
  {
    ghost var s0 := store.sessions;
    var attempts := [AllSucceed];
    assert AllKeepInvariant(attempts);
    ghost var retries;
    r, retries := a.Connect(now, attempts);
    PassWithoutCandidateQueues(s0, [], store.sessions, store.rooms, a.sessionId, now, AllSucceed, r);
    SetStatusAgain(s0, a.sessionId, Connecting, Some(now));
  }

  /** A client that searches while exactly one other session is connecting is matched with it in a new room. */
  method SecondSearches(store: Store, b: ChatClient, other: string, now: int) returns (r: AttemptResult)
    requires b.store == store && store.Inv() && store.rooms == []
    requires b.sessionId in store.sessions && other in store.sessions && other != b.sessionId
    requires store.sessions[other].status == Connecting
    requires forall q :: q in store.sessions && q != other && q != b.sessionId ==> store.sessions[q].status != Connecting
    modifies b, store
    ensures r.Matched? && r.partner == other && b.partnerUsername == old(store.sessions)[other].username
    ensures store.rooms == [NewRoom(Canonical(b.sessionId, other), now)] && b.roomId == Some(0)
    ensures b.sessionId == old(b.sessionId)
    ensures b.sessionId in store.sessions && store.sessions[b.sessionId].username == old(store.sessions)[b.sessionId].username
  {
    ghost var s0 := store.sessions;
    ghost var retries;
    r, retries := b.Connect(now, [AllSucceed]);
    PassWithOneCandidateMatches(s0, [], store.sessions, store.rooms, b.sessionId, other, now, AllSucceed, r);
  }

  /** A searching client learns of the room another session made with it, and enters it. */
  method FirstDiscovers(store: Store, a: ChatClient, other: string, now: int)
    requires a.store == store && a.sessionId != "" && a.sessionId != other && a.chatState == Searching
    requires store.rooms == [NewRoom(Canonical(other, a.sessionId), now)]
    requires other in store.sessions && store.sessions[other].username != ""
    modifies a
    ensures a.roomId == Some(0) && a.partnerUsername == store.sessions[other].username
  {
    NewRoomPartners(other, a.sessionId, now);
    var room := store.rooms[0];
    assert room == NewRoom(Canonical(other, a.sessionId), now);
    assert room.Active() && room.Involves(a.sessionId);
    assert FirstActiveRoomOf(store.rooms, a.sessionId) == Some(0) by {
      assert !NoActiveRoomOf(store.rooms, a.sessionId);
    }
    a.OnSelfMatched(Status.Matched, true, true);
  }

  /**
   * Two clients on one store: the first searches and finds nobody, the
   * second finds the first, and the first then discovers the room through
   * its own status update. Both end up in the same room, each showing the
   * other's name.
   */
  method TwoClientsMatch() returns (roomA: Option<nat>, roomB: Option<nat>, seenByA: string, seenByB: string)
    ensures roomA.Some? && roomA == roomB
    ensures seenByA == "bob" && seenByB == "alice"
  {
    var store, a, b := TwoClientsLoggedIn();
    assert "session_a" != "session_b" by { assert "session_a"[8] != "session_b"[8]; }
    var ra := FirstSearches(store, a, 10);
    var rb := SecondSearches(store, b, "session_a", 20);
    FirstDiscovers(store, a, "session_b", 20);
    roomA, roomB, seenByA, seenByB := a.roomId, b.roomId, a.partnerUsername, b.partnerUsername;
  }
}
