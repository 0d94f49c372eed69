/** The in-memory storage of the matching backend (backend/userMatching.js):
    the waiting pool, a JavaScript `Map` from socket id to waiting user that
    iterates in insertion order, and the matched-room registry. */
module Matching {
  import opened Util

  type SocketId = string

  /** Waiting users older than this many milliseconds are evicted. */
  const MaxWaitMs: int := 5 * 60 * 1000

  /** The profile fields a client sends with `join-room`. */
  datatype Profile = Profile(
    name: string,
    email: string,
    techInterest: string,
    practiceGoals: seq<string>,
    university: string,
    year: string)

  datatype Status = Waiting | Matched

  /** One value of the waiting-users map; its key is `socketId`. */
  datatype WaitingUser = WaitingUser(
    socketId: SocketId,
    roomId: string,
    profile: Profile,
    status: Status,
    joinedAt: int)

  /** A matched-room record; its status is always "active", so it is not stored. */
  datatype MatchedRoom = MatchedRoom(roomId: string, users: seq<WaitingUser>, createdAt: int)

  // ---------------------------------------------------------------------------
  // The waiting-users map, as the sequence of its values in iteration order
  // ---------------------------------------------------------------------------

  /** Map keys are unique: no two values carry the same socket id. */
  predicate UniqueIds(es: seq<WaitingUser>)
  {
    forall i, j :: 0 <= i < j < |es| ==> es[i].socketId != es[j].socketId
  }

  /** `map.has(s)` */
  predicate Has(es: seq<WaitingUser>, s: SocketId)
  {
    exists i :: 0 <= i < |es| && es[i].socketId == s
  }

  lemma HasCons(es: seq<WaitingUser>, s: SocketId)
    requires es != []
    ensures Has(es, s) <==> es[0].socketId == s || Has(es[1..], s)
  {
    if Has(es, s) && es[0].socketId != s {
      var i :| 0 <= i < |es| && es[i].socketId == s;
      assert es[1..][i - 1].socketId == s;
    }
    if Has(es[1..], s) {
      var i :| 0 <= i < |es[1..]| && es[1..][i].socketId == s;
      assert es[i + 1].socketId == s;
    }
  }

  /** Position of the value stored under `s`, if any. */
  function IndexOf(es: seq<WaitingUser>, s: SocketId): (r: Option<nat>)
    ensures r.Some? ==> r.value < |es| && es[r.value].socketId == s
    ensures r.None? <==> !Has(es, s)
  {
    if es == [] then None
    else if es[0].socketId == s then Some(0)
    else
      HasCons(es, s);
      match IndexOf(es[1..], s)
      case None => None
      case Some(i) => Some(i + 1)
  }

  /** `map.get(s)` */
  function Lookup(es: seq<WaitingUser>, s: SocketId): (r: Option<WaitingUser>)
    ensures r.None? <==> !Has(es, s)
    ensures r.Some? ==> r.value in es && r.value.socketId == s
    ensures UniqueIds(es) ==> forall x :: x in es && x.socketId == s ==> r == Some(x)
  {
    match IndexOf(es, s)
    case None => None
    case Some(i) => Some(es[i])
  }

  /** `map.set(e.socketId, e)`: an existing key keeps its position and gets
      the new value; a new key goes to the end of the iteration order. */
  function Upsert(es: seq<WaitingUser>, e: WaitingUser): (r: seq<WaitingUser>)
    requires UniqueIds(es)
    ensures UniqueIds(r)
    ensures Has(es, e.socketId) ==>
      |r| == |es| && forall i :: 0 <= i < |es| ==> r[i] == (if es[i].socketId == e.socketId then e else es[i])
    ensures !Has(es, e.socketId) ==> r == es + [e]
  {
    match IndexOf(es, e.socketId)
    case None => es + [e]
    case Some(i) => es[i := e]
  }

  /** After an upsert the key maps to the new value and every other key is
      untouched. */
  lemma UpsertLookup(es: seq<WaitingUser>, e: WaitingUser)
    requires UniqueIds(es)
    ensures Lookup(Upsert(es, e), e.socketId) == Some(e)
    ensures forall k :: k != e.socketId ==> Lookup(Upsert(es, e), k) == Lookup(es, k)
  {
    var r := Upsert(es, e);
    assert e in r by {
      if Has(es, e.socketId) {
        var i :| 0 <= i < |es| && es[i].socketId == e.socketId;
        assert r[i] == e;
      } else {
        assert r[|es|] == e;
      }
    }
    forall k | k != e.socketId
      ensures Lookup(r, k) == Lookup(es, k)
    {
      if Has(es, k) {
        var i :| 0 <= i < |es| && es[i].socketId == k;
        assert r[i] == es[i];
      }
      if Has(r, k) {
        var i :| 0 <= i < |r| && r[i].socketId == k;
        assert i < |es| && r[i] == es[i];
      }
    }
  }

  /** `map.delete(s)`: the value for `s` goes, the others keep their order. */
  function Delete(es: seq<WaitingUser>, s: SocketId): seq<WaitingUser>
  {
    if es == [] then []
    else if es[0].socketId == s then Delete(es[1..], s)
    else [es[0]] + Delete(es[1..], s)
  }

  /** What a delete keeps: every value under another key, in the old order,
      and nothing under the deleted key. */
  lemma {:induction false} DeleteKeeps(es: seq<WaitingUser>, s: SocketId)
    ensures forall e :: e in Delete(es, s) <==> e in es && e.socketId != s
    ensures IsSubsequence(Delete(es, s), es)
    ensures !Has(Delete(es, s), s)
  {
    var r := Delete(es, s);
    if es != [] {
      DeleteKeeps(es[1..], s);
      assert es == [es[0]] + es[1..];
      SubsequencePrepend(Delete(es[1..], s), es[1..], es[0]);
    }
    forall i | 0 <= i < |r| ensures r[i].socketId != s {
      assert r[i] in r;
    }
  }

  /** Deleting an absent key changes nothing. */
  lemma {:induction false} DeleteAbsent(es: seq<WaitingUser>, s: SocketId)
    requires !Has(es, s)
    ensures Delete(es, s) == es
  {
    if es != [] {
      HasCons(es, s);
      DeleteAbsent(es[1..], s);
      assert es == [es[0]] + es[1..];
    }
  }

  /** A value whose id is not among those of `t` can go in front of `t`
      without breaking uniqueness. */
  lemma UniqueCons(x: WaitingUser, t: seq<WaitingUser>)
    requires UniqueIds(t) && !Has(t, x.socketId)
    ensures UniqueIds([x] + t)
  {
    var r := [x] + t;
    forall i, j | 0 <= i < j < |r| ensures r[i].socketId != r[j].socketId {
      if i == 0 {
        assert r[j] == t[j - 1];
      } else {
        assert r[i] == t[i - 1] && r[j] == t[j - 1];
      }
    }
  }

  /** Deleting keeps keys unique and removes exactly one value when the key
      was present. */
  lemma {:induction false} DeleteUnique(es: seq<WaitingUser>, s: SocketId)
    requires UniqueIds(es)
    ensures UniqueIds(Delete(es, s))
    ensures |Delete(es, s)| == if Has(es, s) then |es| - 1 else |es|
  {
    if es != [] {
      var t := Delete(es[1..], s);
      assert UniqueIds(es[1..]);
      DeleteUnique(es[1..], s);
      HasCons(es, s);
      DeleteKeeps(es[1..], s);
      if es[0].socketId != s {
        forall i | 0 <= i < |t| ensures t[i].socketId != es[0].socketId {
          assert t[i] in es[1..];
          var k :| 0 <= k < |es[1..]| && es[1..][k] == t[i];
          assert es[k + 1] == t[i];
        }
        UniqueCons(es[0], t);
      } else {
        forall j | 0 <= j < |es[1..]| ensures es[1..][j].socketId != s {
          assert es[1..][j] == es[j + 1];
        }
      }
    }
  }

  /** Deleting the key of the entry at position `i` removes exactly that entry. */
  lemma {:induction false} DeleteAt(es: seq<WaitingUser>, i: nat)
    requires UniqueIds(es) && i < |es|
    ensures Delete(es, es[i].socketId) == es[..i] + es[i + 1..]
  {
    if i == 0 {
      forall j | 0 <= j < |es[1..]| ensures es[1..][j].socketId != es[0].socketId {
        assert es[1..][j] == es[j + 1];
      }
      DeleteAbsent(es[1..], es[0].socketId);
    } else {
      assert es[1..][i - 1] == es[i];
      assert Delete(es[1..], es[i].socketId) == es[1..][..i - 1] + es[1..][i..] by {
        assert UniqueIds(es[1..]);
        DeleteAt(es[1..], i - 1);
      }
      assert es[0].socketId != es[i].socketId;
      assert es[1..][..i - 1] + es[1..][i..] == es[1..i] + es[i + 1..];
      assert es[..i] + es[i + 1..] == [es[0]] + (es[1..i] + es[i + 1..]);
    }
  }

  /** `getWaitingUsersInRoom`: the waiting values of one room, in map order. */
  function WaitingInRoom(es: seq<WaitingUser>, roomId: string): (r: seq<WaitingUser>)
    ensures forall e :: e in r <==> e in es && e.roomId == roomId && e.status == Waiting
    ensures IsSubsequence(r, es)
  {
    if es == [] then []
    else
      var t := WaitingInRoom(es[1..], roomId);
      assert es == [es[0]] + es[1..];
      SubsequencePrepend(t, es[1..], es[0]);
      if es[0].roomId == roomId && es[0].status == Waiting then [es[0]] + t else t
  }

  /** `getPotentialMatches`: the waiting values of the room, other than the
      current user's own. */
  function PotentialMatches(es: seq<WaitingUser>, current: WaitingUser, roomId: string): (r: seq<WaitingUser>)
    ensures forall e :: e in r <==> e in es && e.roomId == roomId && e.status == Waiting && e.socketId != current.socketId
    ensures IsSubsequence(r, es)
  {
    if es == [] then []
    else
      var t := PotentialMatches(es[1..], current, roomId);
      assert es == [es[0]] + es[1..];
      SubsequencePrepend(t, es[1..], es[0]);
      if es[0].roomId == roomId && es[0].status == Waiting && es[0].socketId != current.socketId
      then [es[0]] + t
      else t
  }

  /** The potential matches are the room's waiting list with the current
      user's id taken out, so nobody is offered as their own match. */
  lemma {:induction false} PotentialMatchesExcludeSelf(es: seq<WaitingUser>, current: WaitingUser, roomId: string)
    ensures PotentialMatches(es, current, roomId) == Delete(WaitingInRoom(es, roomId), current.socketId)
  {
    if es != [] {
      PotentialMatchesExcludeSelf(es[1..], current, roomId);
    }
  }

  /** How `kept + s[i..]` splits around its element `s[i]`. */
  lemma SplitAt<T>(kept: seq<T>, s: seq<T>, i: int)
    requires 0 <= i < |s|
    ensures (kept + s[i..])[|kept|] == s[i]
    ensures (kept + s[i..])[..|kept|] == kept
    ensures (kept + s[i..])[|kept| + 1..] == s[i + 1..]
    ensures kept + s[i..] == (kept + [s[i]]) + s[i + 1..]
  {
  }

  /** The values a cleanup at `cutoff` keeps: those not older than it, in
      map order. */
  function Recent(es: seq<WaitingUser>, cutoff: int): seq<WaitingUser>
  {
    if es == [] then []
    else if es[0].joinedAt < cutoff then Recent(es[1..], cutoff)
    else [es[0]] + Recent(es[1..], cutoff)
  }

  /** A cleanup at `cutoff` removes exactly the values that joined before it
      and keeps the order of the rest. */
  lemma {:induction false} RecentKeeps(es: seq<WaitingUser>, cutoff: int)
    ensures forall e :: e in Recent(es, cutoff) <==> e in es && !(e.joinedAt < cutoff)
    ensures IsSubsequence(Recent(es, cutoff), es)
  {
    if es != [] {
      RecentKeeps(es[1..], cutoff);
      assert es == [es[0]] + es[1..];
      SubsequencePrepend(Recent(es[1..], cutoff), es[1..], es[0]);
    }
  }

  lemma {:induction false} RecentSnoc(es: seq<WaitingUser>, e: WaitingUser, cutoff: int)
    ensures Recent(es + [e], cutoff) == Recent(es, cutoff) + (if e.joinedAt < cutoff then [] else [e])
  {
    if es == [] {
      assert [e][1..] == [];
    } else {
      assert (es + [e])[1..] == es[1..] + [e];
      RecentSnoc(es[1..], e, cutoff);
    }
  }

  /** One step of the cleanup loop over a stale entry: with the first `i`
      entries of the snapshot already swept, deleting entry `i` leaves the
      first `i + 1` swept, and the map keeps unique keys. */
  lemma CleanupDrop(ws: seq<WaitingUser>, entries: seq<WaitingUser>, i: int, cutoff: int)
    requires 0 <= i < |entries| && entries[i].joinedAt < cutoff
    requires ws == Recent(entries[..i], cutoff) + entries[i..]
    requires UniqueIds(ws)
    ensures Delete(ws, entries[i].socketId) == Recent(entries[..i + 1], cutoff) + entries[i + 1..]
    ensures UniqueIds(Delete(ws, entries[i].socketId))
    ensures Recent(entries[..i + 1], cutoff) == Recent(entries[..i], cutoff)
  {
    var kept := Recent(entries[..i], cutoff);
    assert entries[..i + 1] == entries[..i] + [entries[i]];
    RecentSnoc(entries[..i], entries[i], cutoff);
    SplitAt(kept, entries, i);
    DeleteAt(ws, |kept|);
    DeleteUnique(ws, entries[i].socketId);
  }

  /** The same step over an entry that is recent enough: nothing is deleted. */
  lemma CleanupKeep(ws: seq<WaitingUser>, entries: seq<WaitingUser>, i: int, cutoff: int)
    requires 0 <= i < |entries| && !(entries[i].joinedAt < cutoff)
    requires ws == Recent(entries[..i], cutoff) + entries[i..]
    ensures ws == Recent(entries[..i + 1], cutoff) + entries[i + 1..]
    ensures Recent(entries[..i + 1], cutoff) == Recent(entries[..i], cutoff) + [entries[i]]
  {
    assert entries[..i + 1] == entries[..i] + [entries[i]];
    RecentSnoc(entries[..i], entries[i], cutoff);
    SplitAt(Recent(entries[..i], cutoff), entries, i);
  }

  // ---------------------------------------------------------------------------
  // Matched-room keys
  // ---------------------------------------------------------------------------

  /** The key `createMatchedRoom` builds: `${user1.socketId}-${user2.socketId}`. */
  function RoomKeyAsWritten(a: SocketId, b: SocketId): string
  {
    a + "-" + b
  }

  /** Matching A with B and B with A gives two different keys. */
  lemma RoomKeyAsWrittenIsOrderDependent()
    ensures RoomKeyAsWritten("A", "B") != RoomKeyAsWritten("B", "A")
  {
    assert RoomKeyAsWritten("A", "B")[0] == 'A';
  }

  /** Lexicographic order on strings, by code point. */
  predicate LexLe(a: string, b: string)
  {
    a == [] || (b != [] && (a[0] < b[0] || (a[0] == b[0] && LexLe(a[1..], b[1..]))))
  }

  lemma {:induction false} LexTotal(a: string, b: string)
    ensures LexLe(a, b) || LexLe(b, a)
  {
    if a != [] && b != [] && a[0] == b[0] {
      LexTotal(a[1..], b[1..]);
    }
  }

  lemma {:induction false} LexAntisymmetric(a: string, b: string)
    requires LexLe(a, b) && LexLe(b, a)
    ensures a == b
  {
    if a != [] && b != [] {
      LexAntisymmetric(a[1..], b[1..]);
      assert a == [a[0]] + a[1..] && b == [b[0]] + b[1..];
    }
  }

  /** The canonical matched-room key: the two ids in lexicographic order,
      joined by a dash. */
  function SessionKey(a: SocketId, b: SocketId): (k: string)
    ensures k == a + "-" + b || k == b + "-" + a
  {
    if LexLe(a, b) then a + "-" + b else b + "-" + a
  }

  /** The key does not depend on which of the two users found the other. */
  lemma SessionKeySymmetric(a: SocketId, b: SocketId)
    ensures SessionKey(a, b) == SessionKey(b, a)
  {
    LexTotal(a, b);
    if LexLe(a, b) && LexLe(b, a) {
      LexAntisymmetric(a, b);
    }
  }

  /** Every matched-room key contains a dash. */
  lemma SessionKeyHasDash(a: SocketId, b: SocketId)
    ensures '-' in SessionKey(a, b)
  {
    var k := SessionKey(a, b);
    if k == a + "-" + b {
      assert k[|a|] == '-';
    } else {
      assert k[|b|] == '-';
    }
  }

  /** Matched rooms are filed under their own canonical key and hold two users. */
  ghost predicate RoomsWellKeyed(m: map<string, MatchedRoom>)
  {
    forall k :: k in m ==>
      && |m[k].users| == 2
      && m[k].roomId == k
      && k == SessionKey(m[k].users[0].socketId, m[k].users[1].socketId)
  }

  /** Socket `s` is one of the users of a matched room. */
  predicate Involves(r: MatchedRoom, s: SocketId)
  {
    exists i :: 0 <= i < |r.users| && r.users[i].socketId == s
  }

  /** The other users of the matched rooms that involve `s`. */
  function SessionPeers(m: map<string, MatchedRoom>, s: SocketId): set<SocketId>
  {
    set k, i | k in m && 0 <= i < |m[k].users| && Involves(m[k], s) && m[k].users[i].socketId != s
      :: m[k].users[i].socketId
  }

  /** The matched rooms that do not involve `s`. */
  function WithoutSessionsOf(m: map<string, MatchedRoom>, s: SocketId): map<string, MatchedRoom>
  {
    map k | k in m && !Involves(m[k], s) :: m[k]
  }

  /** Closing the sessions of `s` leaves it without peers, keeps every other
      room as it was and keeps the registry well keyed. */
  lemma ClosingSessions(m: map<string, MatchedRoom>, s: SocketId)
    ensures SessionPeers(WithoutSessionsOf(m, s), s) == {}
    ensures forall k :: k in m && !Involves(m[k], s) ==>
      k in WithoutSessionsOf(m, s) && WithoutSessionsOf(m, s)[k] == m[k]
    ensures forall k :: k in WithoutSessionsOf(m, s) ==> k in m && !Involves(m[k], s)
    ensures RoomsWellKeyed(m) ==> RoomsWellKeyed(WithoutSessionsOf(m, s))
  {
    var w := WithoutSessionsOf(m, s);
    assert forall k :: k in w ==> !Involves(w[k], s);
  }

  /** A room created for `a` and `b` makes each the other's peer. */
  lemma CreatedRoomPeers(m: map<string, MatchedRoom>, a: WaitingUser, b: WaitingUser, now: int)
    requires a.socketId != b.socketId
    ensures var key := SessionKey(a.socketId, b.socketId);
      var m' := m[key := MatchedRoom(key, [a, b], now)];
      b.socketId in SessionPeers(m', a.socketId) && a.socketId in SessionPeers(m', b.socketId)
  {
    var key := SessionKey(a.socketId, b.socketId);
    var m' := m[key := MatchedRoom(key, [a, b], now)];
    assert Involves(m'[key], a.socketId) && Involves(m'[key], b.socketId) by {
      assert m'[key].users[0] == a && m'[key].users[1] == b;
    }
    assert m'[key].users[1].socketId == b.socketId;
    assert m'[key].users[0].socketId == a.socketId;
  }

  /** A practice-room id without a dash, such as the ids "1" to "6" of the
      rooms page, never names a matched room: deleting it deletes nothing. */
  lemma PracticeRoomIdIsNoSessionKey(m: map<string, MatchedRoom>, roomId: string)
    requires RoomsWellKeyed(m) && '-' !in roomId
    ensures roomId !in m
    ensures m - {roomId} == m
  {
    if roomId in m {
      SessionKeyHasDash(m[roomId].users[0].socketId, m[roomId].users[1].socketId);
    }
  }

  /** The in-memory storage object of userMatching.js. */
  class Store {
    var waitingUsers: seq<WaitingUser>
    var matchedRooms: map<string, MatchedRoom>

    ghost predicate Valid()
      reads this
    {
      UniqueIds(waitingUsers) && RoomsWellKeyed(matchedRooms)
    }

    constructor ()
      ensures Valid()
      ensures waitingUsers == [] && matchedRooms == map[]
    {
      waitingUsers := [];
      matchedRooms := map[];
    }

    /** `addUserToWaitingList`: store the user with status waiting and a
        fresh join time, replacing any earlier value for the same socket. */
    method AddUserToWaitingList(info: WaitingUser, now: int) returns (insertedId: SocketId)
      requires Valid()
      modifies this
      ensures Valid()
      ensures waitingUsers == Upsert(old(waitingUsers), info.(status := Waiting, joinedAt := now))
      ensures matchedRooms == old(matchedRooms)
      ensures insertedId == info.socketId
    {
      waitingUsers := Upsert(waitingUsers, info.(status := Waiting, joinedAt := now));
      insertedId := info.socketId;
    }

    /** `removeUserFromWaitingList`: reports how many values were deleted. */
    method RemoveUserFromWaitingList(socketId: SocketId) returns (deletedCount: nat)
      requires Valid()
      modifies this
      ensures Valid()
      ensures deletedCount == if Has(old(waitingUsers), socketId) then 1 else 0
      ensures waitingUsers == Delete(old(waitingUsers), socketId)
      ensures matchedRooms == old(matchedRooms)
    {
      var existed := Lookup(waitingUsers, socketId).Some?;
      DeleteUnique(waitingUsers, socketId);
      if existed {
        waitingUsers := Delete(waitingUsers, socketId);
      } else {
        DeleteAbsent(waitingUsers, socketId);
      }
      DeleteKeeps(old(waitingUsers), socketId);
      deletedCount := if existed then 1 else 0;
    }

    /** `createMatchedRoom`, filed in the in-memory `matchedRooms` map under
        the canonical key. */
    method CreateMatchedRoom(user1: WaitingUser, user2: WaitingUser, now: int) returns (roomId: string)
      requires Valid()
      modifies this
      ensures Valid()
      ensures roomId == SessionKey(user1.socketId, user2.socketId)
      ensures matchedRooms == old(matchedRooms)[roomId := MatchedRoom(roomId, [user1, user2], now)]
      ensures waitingUsers == old(waitingUsers)
    {
      roomId := SessionKey(user1.socketId, user2.socketId);
      matchedRooms := matchedRooms[roomId := MatchedRoom(roomId, [user1, user2], now)];
    }

    /** `removeMatchedRoom`: closing an unknown room is a no-op. */
    method RemoveMatchedRoom(roomId: string) returns (deletedCount: nat)
      requires Valid()
      modifies this
      ensures Valid()
      ensures deletedCount == if roomId in old(matchedRooms) then 1 else 0
      ensures matchedRooms == old(matchedRooms) - {roomId}
      ensures waitingUsers == old(waitingUsers)
    {
      deletedCount := if roomId in matchedRooms then 1 else 0;
      matchedRooms := matchedRooms - {roomId};
    }

    /** Delete every matched room that involves `s` and report the peers
        that were in them. */
    method CloseSessionsOf(s: SocketId) returns (peers: set<SocketId>)
      requires Valid()
      modifies this
      ensures Valid()
      ensures peers == SessionPeers(old(matchedRooms), s)
      ensures matchedRooms == WithoutSessionsOf(old(matchedRooms), s)
      ensures waitingUsers == old(waitingUsers)
    {
      ClosingSessions(matchedRooms, s);
      peers := SessionPeers(matchedRooms, s);
      matchedRooms := WithoutSessionsOf(matchedRooms, s);
    }

    /** `cleanupOldWaitingUsers`: walks the map in order and deletes every
        value that joined more than five minutes before `now`. */
    method CleanupOldWaitingUsers(now: int) returns (deletedCount: nat)
      requires Valid()
      modifies this
      ensures Valid()
      ensures waitingUsers == Recent(old(waitingUsers), now - MaxWaitMs)
      ensures deletedCount == |old(waitingUsers)| - |waitingUsers|
      ensures matchedRooms == old(matchedRooms)
    {
      var cutoff := now - MaxWaitMs;
      var entries := waitingUsers;
      deletedCount := 0;
      var i := 0;
      while i < |entries|
        invariant 0 <= i <= |entries|
        invariant waitingUsers == Recent(entries[..i], cutoff) + entries[i..]
        invariant UniqueIds(waitingUsers)
        invariant deletedCount == i - |Recent(entries[..i], cutoff)|
        invariant matchedRooms == old(matchedRooms)
      {
        var user := entries[i];
        if user.joinedAt < cutoff {
          CleanupDrop(waitingUsers, entries, i, cutoff);
          waitingUsers := Delete(waitingUsers, user.socketId);
          deletedCount := deletedCount + 1;
        } else {
          CleanupKeep(waitingUsers, entries, i, cutoff);
        }
        i := i + 1;
      }
      assert entries[..i] == entries;
    }
  }
}
