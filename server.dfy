/** The socket.io server of the matching backend (backend/server.js): the
    connection registry, the outbound event log and one method per handler,
    each handler one atomic step. The server never puts a socket into a
    named room, so a socket belongs only to the room that carries its own
    id: `socket.to(x)` and `io.to(x)` reach the connected socket whose id is
    `x`, if there is one. */
module Server {
  import opened Util
  import opened Matching
  import opened Scoring

  /** The janitor sweep runs every this many milliseconds. */
  const CleanupIntervalMs: int := 10 * 60 * 1000

  /** What `user-matched` tells a user about the peer. */
  datatype PeerInfo = PeerInfo(
    id: SocketId,
    name: string,
    techInterest: string,
    practiceGoals: seq<string>,
    university: string,
    year: string)

  function PeerOf(u: WaitingUser): (p: PeerInfo)
    ensures p.id == u.socketId && p.name == u.profile.name
    ensures p.techInterest == u.profile.techInterest && p.practiceGoals == u.profile.practiceGoals
    ensures p.university == u.profile.university && p.year == u.profile.year
  {
    PeerInfo(u.socketId, u.profile.name, u.profile.techInterest, u.profile.practiceGoals,
             u.profile.university, u.profile.year)
  }

  datatype SignalKind = Offer | Answer | IceCandidate

  /** A chat message as a client sends it; `sender` may be missing. */
  datatype ChatIn = ChatIn(id: string, sender: Option<string>, message: string, timestamp: string)

  /** The events the server emits. */
  datatype Event =
    | UserMatched(peer: PeerInfo)
    | UserLeft(userId: SocketId)
    | Signalled(kind: SignalKind, userId: SocketId, payload: string)
    | Chat(id: string, sender: string, message: string, timestamp: string)

  /** One emit: the sockets it reaches and what they receive. */
  datatype Delivery = Delivery(to: set<SocketId>, event: Event)

  // ---------------------------------------------------------------------------
  // Who an emit reaches
  // ---------------------------------------------------------------------------

  /** `socket.to(x)` from `sender`: the socket `x`, if connected, never the
      sender itself. */
  function ToRoom(connected: set<SocketId>, sender: SocketId, x: SocketId): (to: set<SocketId>)
    ensures to <= connected && to <= {x} && sender !in to
    ensures x in to <==> x in connected && x != sender
  {
    if x in connected && x != sender then {x} else {}
  }

  /** `io.to(x)`: the socket `x`, if connected. */
  function IoTo(connected: set<SocketId>, x: SocketId): (to: set<SocketId>)
    ensures to <= {x}
    ensures x in to <==> x in connected
  {
    if x in connected then {x} else {}
  }

  /** `socket.broadcast`: every connected socket except the sender. */
  function Broadcast(connected: set<SocketId>, sender: SocketId): (to: set<SocketId>)
    ensures sender !in to
    ensures forall x :: x in to <==> x in connected && x != sender
  {
    connected - {sender}
  }

  /** `message.sender || 'Unknown'`: a missing or empty sender is replaced. */
  function SenderLabel(sender: Option<string>): (shown: string)
    ensures shown != []
    ensures sender.Some? && sender.value != [] ==> shown == sender.value
    ensures sender.None? || sender.value == [] ==> shown == "Unknown"
  {
    if sender.Some? && sender.value != [] then sender.value else "Unknown"
  }

  /** The `offer`, `answer` and `ice-candidate` relay: the payload goes to the
      target only, tagged with the sender's id. */
  function RelaySignal(connected: set<SocketId>, sender: SocketId, kind: SignalKind,
                       target: SocketId, payload: string): (d: Delivery)
    ensures d.to <= {target} && sender !in d.to
    ensures target in d.to <==> target in connected && target != sender
    ensures d.event.Signalled? && d.event.kind == kind
    ensures d.event.userId == sender && d.event.payload == payload
  {
    Delivery(ToRoom(connected, sender, target), Signalled(kind, sender, payload))
  }

  /** The event a chat message becomes. */
  function ChatOut(msg: ChatIn): (e: Event)
    ensures e.Chat? && e.id == msg.id && e.message == msg.message && e.timestamp == msg.timestamp
    ensures e.sender == SenderLabel(msg.sender)
  {
    Chat(msg.id, SenderLabel(msg.sender), msg.message, msg.timestamp)
  }

  // ---------------------------------------------------------------------------
  // The match decision
  // ---------------------------------------------------------------------------

  /** What `findMatch(userId, roomId)` decides on the pool `pool`: the joiner's
      stored value and the best match, or nothing. One random term per
      waiting user is available; the first ones are used. */
  function SelectMatch(pool: seq<WaitingUser>, userId: SocketId, roomId: string, rs: seq<real>)
    : (r: Option<(WaitingUser, Match)>)
    requires RandomTerms(rs) && |rs| >= |pool|
    ensures Lookup(pool, userId).None? ==> r.None?
    ensures r.Some? ==>
      && Lookup(pool, userId) == Some(r.value.0)
      && r.value.1.user in pool
      && r.value.1.user.roomId == roomId
      && r.value.1.user.status == Waiting
      && r.value.1.user.socketId != userId
      && r.value.1.score > Threshold
  {
    match Lookup(pool, userId)
    case None => None
    case Some(cur) =>
      var cands := PotentialMatches(pool, cur, roomId);
      SubsequenceLength(cands, pool);
      var best := FindBestMatch(pool, cur, roomId, rs[..|cands|]);
      if best.None? then None else Some((cur, best.value))
  }

  /** After a match both parties are gone from the pool, whatever else it
      holds. */
  lemma MatchedPairLeavesPool(pool: seq<WaitingUser>, a: SocketId, b: SocketId)
    ensures !Has(Delete(Delete(pool, a), b), a)
    ensures !Has(Delete(Delete(pool, a), b), b)
    ensures forall e :: e in Delete(Delete(pool, a), b) <==> e in pool && e.socketId != a && e.socketId != b
  {
    DeleteKeeps(pool, a);
    DeleteKeeps(Delete(pool, a), b);
    var r := Delete(Delete(pool, a), b);
    forall i | 0 <= i < |r| ensures r[i].socketId != a {
      assert r[i] in r;
    }
  }

  // ---------------------------------------------------------------------------
  // The janitor schedule
  // ---------------------------------------------------------------------------

  /** The sweep that evicts a user who joined at `joinedAt`, with sweeps every
      `CleanupIntervalMs` from server start: the first sweep time `t` with
      `joinedAt < t - MaxWaitMs`. */
  function EvictionTime(joinedAt: nat): (t: int)
    ensures t > 0 && t % CleanupIntervalMs == 0
    ensures joinedAt < t - MaxWaitMs
    ensures !(joinedAt < (t - CleanupIntervalMs) - MaxWaitMs)
  {
    ((joinedAt + MaxWaitMs) / CleanupIntervalMs + 1) * CleanupIntervalMs
  }

  /** A waiting user stays in the pool at most 15 minutes, 10 more than the
      5 minute age the sweep tests. */
  lemma ResidenceBound(joinedAt: nat)
    ensures EvictionTime(joinedAt) - joinedAt <= MaxWaitMs + CleanupIntervalMs
  {
  }

  /** The bound is reached: a user who joins 5 minutes after start is swept
      only 15 minutes later. */
  lemma ResidenceBoundReached()
    ensures EvictionTime(MaxWaitMs) - MaxWaitMs == MaxWaitMs + CleanupIntervalMs
    ensures EvictionTime(MaxWaitMs) - MaxWaitMs > MaxWaitMs
  {
  }

  // ---------------------------------------------------------------------------
  // The server
  // ---------------------------------------------------------------------------

  class Hub {
    const store: Store
    var connected: set<SocketId>
    var log: seq<Delivery>

    ghost predicate Valid()
      reads this, store
    {
      store.Valid()
    }

    constructor ()
      ensures Valid() && fresh(store)
      ensures connected == {} && log == []
      ensures store.waitingUsers == [] && store.matchedRooms == map[]
    {
      store := new Store();
      connected := {};
      log := [];
    }

    /** `io.on('connection')` */
    method Connect(id: SocketId)
      modifies this
      ensures connected == old(connected) + {id}
      ensures log == old(log)
    {
      connected := connected + {id};
    }

    /** `findMatch(userId, roomId)` with the matched room kept in the
        in-memory registry under its canonical key. */
    method FindMatch(userId: SocketId, roomId: string, rs: seq<real>, now: int)
      returns (matched: Option<(WaitingUser, Match)>)
      requires Valid() && RandomTerms(rs) && |rs| >= |store.waitingUsers|
      modifies this, store
      ensures Valid()
      ensures matched == SelectMatch(old(store.waitingUsers), userId, roomId, rs)
      ensures connected == old(connected)
      ensures matched.None? ==>
        && store.waitingUsers == old(store.waitingUsers)
        && store.matchedRooms == old(store.matchedRooms)
        && log == old(log)
      ensures matched.Some? ==>
        var cur := matched.value.0;
        var peer := matched.value.1.user;
        var key := SessionKey(userId, peer.socketId);
        && store.matchedRooms == old(store.matchedRooms)[key := MatchedRoom(key, [cur, peer], now)]
        && store.waitingUsers == Delete(Delete(old(store.waitingUsers), userId), peer.socketId)
        && !Has(store.waitingUsers, userId)
        && !Has(store.waitingUsers, peer.socketId)
        && log == old(log) + [Delivery(IoTo(connected, userId), UserMatched(PeerOf(peer))),
                              Delivery(IoTo(connected, peer.socketId), UserMatched(PeerOf(cur)))]
    {
      matched := SelectMatch(store.waitingUsers, userId, roomId, rs);
      if matched.Some? {
        var cur := matched.value.0;
        var peer := matched.value.1.user;
        MatchedPairLeavesPool(store.waitingUsers, userId, peer.socketId);
        var _ := store.CreateMatchedRoom(cur, peer, now);
        var _ := store.RemoveUserFromWaitingList(userId);
        var _ := store.RemoveUserFromWaitingList(peer.socketId);
        log := log + [Delivery(IoTo(connected, userId), UserMatched(PeerOf(peer))),
                      Delivery(IoTo(connected, peer.socketId), UserMatched(PeerOf(cur)))];
      }
    }

    /** `findMatch` as written: in in-memory mode `createMatchedRoom` fails on
        `db.collection` before anything is stored, and the error is caught,
        so a match is found and then dropped with both users still waiting.
        (The joiner is looked up in the same pool; server.js's own MongoDB
        lookup would fail even earlier, with the same outcome.) */
    method FindMatchAsWritten(userId: SocketId, roomId: string, rs: seq<real>)
      returns (attempted: Option<(WaitingUser, Match)>)
      requires Valid() && RandomTerms(rs) && |rs| >= |store.waitingUsers|
      modifies this, store
      ensures Valid()
      ensures attempted == SelectMatch(old(store.waitingUsers), userId, roomId, rs)
      ensures store.waitingUsers == old(store.waitingUsers)
      ensures store.matchedRooms == old(store.matchedRooms)
      ensures log == old(log) && connected == old(connected)
      ensures attempted.Some? ==>
        Has(store.waitingUsers, userId) && Has(store.waitingUsers, attempted.value.1.user.socketId)
    {
      attempted := SelectMatch(store.waitingUsers, userId, roomId, rs);
      if attempted.Some? {
        var peer := attempted.value.1.user;
        assert Lookup(store.waitingUsers, userId).Some?;
        assert Has(store.waitingUsers, peer.socketId) by {
          var i :| 0 <= i < |store.waitingUsers| && store.waitingUsers[i] == peer;
        }
      }
    }

    /** `join-room` followed by the corrected `findMatch` (as written, the
        match step ends as `FindMatchAsWritten` does). The user is stored as
        waiting and a match is attempted; on a match the room is recorded,
        both users leave the pool and each is told about the other. The
        handler reads `userData.name` before its `try`, so missing user data
        makes it throw with nothing stored; the model keeps the state as it
        was. */
    method JoinRoom(sender: SocketId, roomId: string, userData: Option<Profile>, rs: seq<real>, now: int)
      returns (matched: Option<(WaitingUser, Match)>)
      requires Valid() && RandomTerms(rs) && |rs| >= |store.waitingUsers| + 1
      modifies this, store
      ensures Valid()
      ensures connected == old(connected)
      ensures userData.None? ==>
        && matched.None?
        && store.waitingUsers == old(store.waitingUsers)
        && store.matchedRooms == old(store.matchedRooms)
        && log == old(log)
      ensures userData.Some? ==>
        var pool := Upsert(old(store.waitingUsers), WaitingUser(sender, roomId, userData.value, Waiting, now));
        && matched == SelectMatch(pool, sender, roomId, rs)
        && (matched.None? ==>
              && store.waitingUsers == pool
              && store.matchedRooms == old(store.matchedRooms)
              && log == old(log))
        && (matched.Some? ==>
              var cur := matched.value.0;
              var peer := matched.value.1.user;
              var key := SessionKey(sender, peer.socketId);
              && store.matchedRooms == old(store.matchedRooms)[key := MatchedRoom(key, [cur, peer], now)]
              && store.waitingUsers == Delete(Delete(pool, sender), peer.socketId)
              && !Has(store.waitingUsers, sender)
              && !Has(store.waitingUsers, peer.socketId)
              && log == old(log) + [Delivery(IoTo(connected, sender), UserMatched(PeerOf(peer))),
                                    Delivery(IoTo(connected, peer.socketId), UserMatched(PeerOf(cur)))])
    {
      matched := None;
      if userData.Some? {
        var info := WaitingUser(sender, roomId, userData.value, Waiting, now);
        var _ := store.AddUserToWaitingList(info, now);
        assert info.(status := Waiting, joinedAt := now) == info;
        assert |store.waitingUsers| <= |old(store.waitingUsers)| + 1;
        matched := FindMatch(sender, roomId, rs, now);
      }
    }

    /** `leave-room` as written: the sender leaves the pool, `user-left` goes
        to the socket named by the practice-room id (normally no socket),
        and `removeMatchedRoom` fails on `db.collection`, so the matched
        room stays. */
    method LeaveRoomAsWritten(sender: SocketId, roomId: string)
      requires Valid()
      modifies this, store
      ensures Valid()
      ensures store.waitingUsers == Delete(old(store.waitingUsers), sender)
      ensures store.matchedRooms == old(store.matchedRooms)
      ensures log == old(log) + [Delivery(ToRoom(connected, sender, roomId), UserLeft(sender))]
      ensures connected == old(connected)
    {
      var _ := store.RemoveUserFromWaitingList(sender);
      log := log + [Delivery(ToRoom(connected, sender, roomId), UserLeft(sender))];
    }

    /** `leave-room` as intended: the sender leaves the pool, its matched
        rooms are closed and their other users receive `user-left`. */
    method LeaveRoom(sender: SocketId)
      requires Valid()
      modifies this, store
      ensures Valid()
      ensures store.waitingUsers == Delete(old(store.waitingUsers), sender)
      ensures store.matchedRooms == WithoutSessionsOf(old(store.matchedRooms), sender)
      ensures SessionPeers(store.matchedRooms, sender) == {}
      ensures log == old(log) +
        [Delivery(SessionPeers(old(store.matchedRooms), sender) * connected, UserLeft(sender))]
      ensures connected == old(connected)
    {
      var _ := store.RemoveUserFromWaitingList(sender);
      ClosingSessions(store.matchedRooms, sender);
      var peers := store.CloseSessionsOf(sender);
      log := log + [Delivery(peers * connected, UserLeft(sender))];
    }

    /** `offer`, `answer` and `ice-candidate`: relayed to the target only. */
    method Signal(sender: SocketId, kind: SignalKind, target: SocketId, payload: string)
      modifies this
      ensures log == old(log) + [RelaySignal(connected, sender, kind, target, payload)]
      ensures connected == old(connected)
    {
      log := log + [RelaySignal(connected, sender, kind, target, payload)];
    }

    /** `chat-message` as written: broadcast to every other connection. */
    method ChatMessageAsWritten(sender: SocketId, msg: ChatIn)
      modifies this
      ensures log == old(log) + [Delivery(Broadcast(connected, sender), ChatOut(msg))]
      ensures connected == old(connected)
    {
      log := log + [Delivery(Broadcast(connected, sender), ChatOut(msg))];
    }

    /** `chat-message` as intended: delivered to the sender's session peers. */
    method ChatMessage(sender: SocketId, msg: ChatIn)
      requires Valid()
      modifies this
      ensures log == old(log) + [Delivery(SessionPeers(store.matchedRooms, sender) * connected, ChatOut(msg))]
      ensures connected == old(connected)
    {
      log := log + [Delivery(SessionPeers(store.matchedRooms, sender) * connected, ChatOut(msg))];
    }

    /** `disconnect`: the sender leaves the pool, every other connection
        receives `user-left`, and the socket is gone. */
    method Disconnect(sender: SocketId)
      requires Valid()
      modifies this, store
      ensures Valid()
      ensures store.waitingUsers == Delete(old(store.waitingUsers), sender)
      ensures store.matchedRooms == old(store.matchedRooms)
      ensures log == old(log) + [Delivery(Broadcast(old(connected), sender), UserLeft(sender))]
      ensures connected == old(connected) - {sender}
    {
      var _ := store.RemoveUserFromWaitingList(sender);
      log := log + [Delivery(Broadcast(connected, sender), UserLeft(sender))];
      connected := connected - {sender};
    }
  }

  // ---------------------------------------------------------------------------
  // What the routing means
  // ---------------------------------------------------------------------------

  /** The practice-room `user-left` of `leave-room` reaches nobody when no
      socket carries the practice-room id. */
  lemma LeaveNoticeReachesNoPeer(connected: set<SocketId>, sender: SocketId, roomId: string)
    requires roomId !in connected
    ensures ToRoom(connected, sender, roomId) == {}
  {
  }

  /** A broadcast chat reaches a connection that shares no session with the
      sender; the session-routed chat never does. */
  lemma ChatReachesStrangers(m: map<string, MatchedRoom>, connected: set<SocketId>,
                             sender: SocketId, stranger: SocketId)
    requires stranger in connected && stranger != sender
    requires forall k :: k in m ==> !Involves(m[k], stranger)
    ensures stranger in Broadcast(connected, sender)
    ensures stranger !in SessionPeers(m, sender) * connected
  {
    forall k, i | k in m && 0 <= i < |m[k].users| ensures m[k].users[i].socketId != stranger {
      assert !Involves(m[k], stranger);
    }
  }

  /** Once matched, two users reach each other through session routing. */
  lemma MatchedUsersAreSessionPeers(m: map<string, MatchedRoom>, a: WaitingUser, b: WaitingUser, now: int)
    requires a.socketId != b.socketId
    ensures var key := SessionKey(a.socketId, b.socketId);
      b.socketId in SessionPeers(m[key := MatchedRoom(key, [a, b], now)], a.socketId)
  {
    CreatedRoomPeers(m, a, b, now);
  }
}
