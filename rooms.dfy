/** The practice-room list of src/components/pages/Rooms.tsx: the fixed rooms,
    the search-and-category filter, the difficulty badge, and the page state
    that joining and leaving a video chat changes. */
module Rooms {
  import opened Util
  import opened Text
  import opened FormCore

  datatype Room = Room(id: nat, name: string, category: string, difficulty: string, skills: seq<string>)

  /** The rooms the page lists. */
  const RoomList: seq<Room> := [
    Room(1, "LeetCode Mock Interviews", "technical", "Intermediate",
         ["Data Structures", "Algorithms", "Problem Solving"]),
    Room(2, "Elevator Pitch Practice", "career", "Beginner",
         ["Communication", "Personal Branding", "Networking"]),
    Room(3, "Behavioral Interview Prep", "behavioral", "Intermediate",
         ["STAR Method", "Storytelling", "Leadership"]),
    Room(4, "System Design Discussions", "technical", "Advanced",
         ["System Architecture", "Scalability", "Design Patterns"]),
    Room(5, "Salary Negotiation Workshop", "career", "Intermediate",
         ["Negotiation", "Market Research", "Confidence Building"]),
    Room(6, "Technical Presentation Skills", "behavioral", "Beginner",
         ["Public Speaking", "Technical Communication", "Confidence"])
  ]

  /** `room.id.toString()` for the listed rooms, the ids the join buttons pass. */
  const RoomIds: seq<string> := ["1", "2", "3", "4", "5", "6"]

  // ---------------------------------------------------------------------------
  // The filter
  // ---------------------------------------------------------------------------

  /** The search term occurs, ignoring case, in the room's name or in one of
      its skills. */
  predicate MatchesSearch(room: Room, term: string)
  {
    || Includes(ToLower(room.name), ToLower(term))
    || exists i :: 0 <= i < |room.skills| && Includes(ToLower(room.skills[i]), ToLower(term))
  }

  predicate MatchesCategory(room: Room, category: string)
  {
    category == "all" || room.category == category
  }

  predicate Shows(room: Room, term: string, category: string)
  {
    MatchesSearch(room, term) && MatchesCategory(room, category)
  }

  /** `filteredRooms`: `rooms.filter(...)`. */
  function FilteredRooms(rooms: seq<Room>, term: string, category: string): seq<Room>
  {
    if rooms == [] then []
    else if Shows(rooms[0], term, category) then [rooms[0]] + FilteredRooms(rooms[1..], term, category)
    else FilteredRooms(rooms[1..], term, category)
  }

  /** The filter keeps exactly the rooms that match both the search and the
      category, in their listed order. */
  lemma {:induction false} FilteredRoomsKeeps(rooms: seq<Room>, term: string, category: string)
    ensures forall r :: r in FilteredRooms(rooms, term, category) <==> r in rooms && Shows(r, term, category)
    ensures IsSubsequence(FilteredRooms(rooms, term, category), rooms)
  {
    if rooms != [] {
      FilteredRoomsKeeps(rooms[1..], term, category);
      assert rooms == [rooms[0]] + rooms[1..];
      var r := FilteredRooms(rooms[1..], term, category);
      if Shows(rooms[0], term, category) {
        assert ([rooms[0]] + r)[1..] == r;
      } else {
        SubsequencePrepend(r, rooms[1..], rooms[0]);
      }
    }
  }

  /** With no search term and the "all" category every room is shown. */
  lemma {:induction false} EmptySearchShowsAll(rooms: seq<Room>)
    ensures FilteredRooms(rooms, "", "all") == rooms
  {
    if rooms != [] {
      IncludesEmpty(ToLower(rooms[0].name));
      assert Shows(rooms[0], "", "all");
      EmptySearchShowsAll(rooms[1..]);
      assert [rooms[0]] + rooms[1..] == rooms;
    }
  }

  /** Narrowing to one category never shows more than "all" does. */
  lemma {:induction false} CategoryNarrows(rooms: seq<Room>, term: string, category: string)
    ensures IsSubsequence(FilteredRooms(rooms, term, category), FilteredRooms(rooms, term, "all"))
  {
    if rooms != [] {
      CategoryNarrows(rooms[1..], term, category);
      var r := FilteredRooms(rooms[1..], term, category);
      var all := FilteredRooms(rooms[1..], term, "all");
      if Shows(rooms[0], term, category) {
        assert ([rooms[0]] + r)[1..] == r;
        assert ([rooms[0]] + all)[1..] == all;
      } else if Shows(rooms[0], term, "all") {
        SubsequencePrepend(r, all, rooms[0]);
      }
    }
  }

  // ---------------------------------------------------------------------------
  // Badges and the pitch-timer button
  // ---------------------------------------------------------------------------

  /** `getDifficultyColor(difficulty)` */
  function DifficultyColor(difficulty: string): (classes: string)
    ensures difficulty == "Beginner" ==> classes == "bg-green-100 text-green-800"
    ensures difficulty == "Intermediate" ==> classes == "bg-yellow-100 text-yellow-800"
    ensures difficulty == "Advanced" ==> classes == "bg-red-100 text-red-800"
    ensures difficulty !in {"Beginner", "Intermediate", "Advanced"} ==> classes == "bg-gray-100 text-gray-800"
  {
    if difficulty == "Beginner" then "bg-green-100 text-green-800"
    else if difficulty == "Intermediate" then "bg-yellow-100 text-yellow-800"
    else if difficulty == "Advanced" then "bg-red-100 text-red-800"
    else "bg-gray-100 text-gray-800"
  }

  /** `isElevatorPitchRoom(name)`: the rooms that get a pitch-timer button. */
  predicate IsElevatorPitchRoom(name: string)
  {
    name == "Elevator Pitch Practice"
  }

  /** Of the listed rooms only room 2 gets the pitch timer. */
  lemma OnlyRoomTwoHasTimer()
    ensures forall i :: 0 <= i < |RoomList| ==> (IsElevatorPitchRoom(RoomList[i].name) <==> RoomList[i].id == 2)
  {
    var initials := "LEBSST";
    assert forall i :: 0 <= i < |RoomList| ==> |RoomList[i].name| > 1 && RoomList[i].name[0] == initials[i];
    assert RoomList[3].name[1] == 'y' && RoomList[4].name[1] == 'a';
  }

  // ---------------------------------------------------------------------------
  // Page state
  // ---------------------------------------------------------------------------

  class RoomsPage {
    var searchTerm: string
    var selectedCategory: string
    var isInVideoChat: bool
    var currentRoomId: string
    /** The registration data read from local storage, if any. */
    const userData: Option<FormData>

    /** A video chat is open exactly while a room is current, and only for a
        registered user. */
    ghost predicate Valid()
      reads this
    {
      && (isInVideoChat <==> currentRoomId != "")
      && (isInVideoChat ==> userData.Some?)
    }

    constructor (saved: Option<FormData>)
      ensures Valid()
      ensures searchTerm == "" && selectedCategory == "all"
      ensures !isInVideoChat && currentRoomId == "" && userData == saved
    {
      searchTerm := "";
      selectedCategory := "all";
      isInVideoChat := false;
      currentRoomId := "";
      userData := saved;
    }

    /** The rooms on screen. */
    function Visible(): seq<Room>
      reads this
    {
      FilteredRooms(RoomList, searchTerm, selectedCategory)
    }

    /** The search box's `onChange`. */
    method SetSearchTerm(term: string)
      requires Valid()
      modifies this
      ensures Valid()
      ensures searchTerm == term && selectedCategory == old(selectedCategory)
      ensures isInVideoChat == old(isInVideoChat) && currentRoomId == old(currentRoomId)
    {
      searchTerm := term;
    }

    /** A category button's `onClick`. */
    method SelectCategory(category: string)
      requires Valid()
      modifies this
      ensures Valid()
      ensures selectedCategory == category && searchTerm == old(searchTerm)
      ensures isInVideoChat == old(isInVideoChat) && currentRoomId == old(currentRoomId)
    {
      selectedCategory := category;
    }

    /** `handleJoinRoom(roomId)`: unregistered users only get an alert. */
    method JoinRoom(roomId: string) returns (alerted: bool)
      requires Valid() && roomId in RoomIds
      modifies this
      ensures Valid()
      ensures alerted <==> userData.None?
      ensures alerted ==> isInVideoChat == old(isInVideoChat) && currentRoomId == old(currentRoomId)
      ensures !alerted ==> isInVideoChat && currentRoomId == roomId
      ensures searchTerm == old(searchTerm) && selectedCategory == old(selectedCategory)
    {
      if userData.None? {
        alerted := true;
        return;
      }
      alerted := false;
      currentRoomId := roomId;
      isInVideoChat := true;
    }

    /** `handleLeaveVideoChat` */
    method LeaveVideoChat()
      requires Valid()
      modifies this
      ensures Valid()
      ensures !isInVideoChat && currentRoomId == ""
      ensures searchTerm == old(searchTerm) && selectedCategory == old(selectedCategory)
    {
      isInVideoChat := false;
      currentRoomId := "";
    }
  }
}
