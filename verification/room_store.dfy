/** The room store, and the paged listing of public rooms. */
module RoomStore {
  import opened Models

  function StatusName(s: RoomStatus): string {
    match s
    case Waiting => "WAITING"
    case InProgress => "IN_PROGRESS"
    case Revealing => "REVEALING"
  }

  predicate NewestFirst(rooms: seq<Room>) {
    forall i, j :: 0 <= i < j < |rooms| ==> rooms[i].createdAt >= rooms[j].createdAt
  }

  predicate AllDifferent(rooms: seq<Room>) {
    forall i, j :: 0 <= i < j < |rooms| ==> rooms[i] != rooms[j]
  }

  /** A newest-first list of exactly these rooms. */
  predicate Listing(rooms: set<Room>, list: seq<Room>) {
    NewestFirst(list) && AllDifferent(list) && rooms == set r | r in list
  }

  /** The page of at most `limit` rooms from `offset` on. */
  function Page(list: seq<Room>, limit: nat, offset: nat): seq<Room> {
    var start := if offset > |list| then |list| else offset;
    var end := if offset + limit > |list| then |list| else offset + limit;
    list[start..end]
  }

  /** A page holds the rooms from `offset` on, as many as there are and at most `limit`. */
  lemma PageAt(list: seq<Room>, limit: nat, offset: nat, k: nat)
    ensures |Page(list, limit, offset)|
            == if offset >= |list| then 0 else if |list| - offset < limit then |list| - offset else limit
    ensures k < |Page(list, limit, offset)| ==> offset + k < |list| && Page(list, limit, offset)[k] == list[offset + k]
  {
  }

  class Store {
    var rooms: map<string, Room>

    /** Every room is stored under its own code. */
    ghost predicate Valid()
      reads this
    {
      forall c :: c in rooms ==> rooms[c].code == c
    }

    ghost function Matching(status: string): (r: set<Room>)
      reads this, rooms.Values
    {
      set c | c in rooms && rooms[c].isPublic && (status == "" || StatusName(rooms[c].status) == status) :: rooms[c]
    }

    constructor ()
      ensures Valid() && rooms == map[]
    {
      rooms := map[];
    }

    method Create(room: Room) returns (error: Option<Error>)
      requires Valid()
      modifies this
      ensures Valid()
      ensures error == if room.code in old(rooms) then Some(RoomCodeExists) else None
      ensures rooms == if error.Some? then old(rooms) else old(rooms)[room.code := room]
    {
      if room.code in rooms { return Some(RoomCodeExists); }
      rooms := rooms[room.code := room];
      return None;
    }

    /** Null stands for the store's `room not found`. */
    method Get(code: string) returns (room: Room?)
      requires Valid()
      ensures if code in rooms then room == rooms[code] && room.code == code else room == null
    {
      if code !in rooms { return null; }
      return rooms[code];
    }

    method Update(room: Room) returns (error: Option<Error>)
      requires Valid()
      modifies this
      ensures Valid()
      ensures error == if room.code in old(rooms) then None else Some(RoomNotFound)
      ensures rooms == if error.Some? then old(rooms) else old(rooms)[room.code := room]
    {
      if room.code !in rooms { return Some(RoomNotFound); }
      rooms := rooms[room.code := room];
      return None;
    }

    method Delete(code: string)
      requires Valid()
      modifies this
      ensures Valid() && rooms == old(rooms) - {code}
    {
      rooms := rooms - {code};
    }

    /** The matching rooms, in the order in which the map happens to be walked. */
    method CollectPublic(status: string) returns (found: seq<Room>)
      requires Valid()
      ensures AllDifferent(found) && Matching(status) == set r | r in found
    {
      found := [];
      var todo := rooms.Keys;
      while todo != {}
        invariant todo <= rooms.Keys && AllDifferent(found)
        invariant forall r :: r in found ==> r.code in rooms && r.code !in todo && r == rooms[r.code] && r in Matching(status)
        invariant forall c :: c in rooms && c !in todo && rooms[c] in Matching(status) ==> rooms[c] in found
      {
        var c :| c in todo;
        todo := todo - {c};
        var room := rooms[c];
        if room.isPublic {
          if status == "" || StatusName(room.status) == status {
            found := found + [room];
          }
        }
      }
    }

    /** The rooms that a status asks for; without one, all public rooms. */
    lemma MatchingIff(status: string, r: Room)
      requires Valid()
      ensures r in Matching(status) <==>
                && r.code in rooms && rooms[r.code] == r && r.isPublic
                && (|| status == "" || (status == "WAITING" && r.status == Waiting)
                    || (status == "IN_PROGRESS" && r.status == InProgress) || (status == "REVEALING" && r.status == Revealing))
    {
    }

    method ListPublicRooms(status: string, limit: nat, offset: nat) returns (page: seq<Room>, total: nat)
      requires Valid()
      ensures total == |Matching(status)|
      ensures exists list :: Listing(Matching(status), list) && page == Page(list, limit, offset)
      ensures forall r :: r in page ==> r.isPublic && r.code in rooms && rooms[r.code] == r
      ensures forall r :: r in page ==>
                (status == "WAITING" ==> r.status == Waiting) && (status == "IN_PROGRESS" ==> r.status == InProgress)
    {
      var found := CollectPublic(status);
      var a := new Room[|found|](i requires 0 <= i < |found| => found[i]);
      assert a[..] == found;
      SortNewestFirst(a);
      ghost var list := a[..];
      SortedListing(found, list);
      ListingSize(Matching(status), list);
      total := a.Length;
      var start := if offset > total then total else offset;
      var end := if offset + limit > total then total else offset + limit;
      if start >= total {
        page := [];
      } else {
        page := a[start..end];
      }
      assert page == Page(list, limit, offset);
      forall r | r in page ensures r in Matching(status) {
        var k :| 0 <= k < |page| && page[k] == r;
        PageAt(list, limit, offset, k);
      }
    }
  }

  lemma SortedListing(found: seq<Room>, list: seq<Room>)
    requires AllDifferent(found) && NewestFirst(list) && multiset(list) == multiset(found)
    ensures Listing((set r | r in found), list)
  {
    forall r ensures r in list <==> r in found {
      assert (r in list <==> r in multiset(list)) && (r in found <==> r in multiset(found));
    }
    forall i, j | 0 <= i < j < |list| ensures list[i] != list[j] {
      if list[i] == list[j] {
        RepeatCounts(list, i, j);
        assert list[i] in multiset(found);
        OneOccurrence(found, list[i]);
      }
    }
  }

  lemma RepeatCounts(s: seq<Room>, i: nat, j: nat)
    requires i < j < |s| && s[i] == s[j]
    ensures multiset(s)[s[i]] >= 2
  {
    assert s == s[..i] + [s[i]] + s[i + 1..j] + [s[j]] + s[j + 1..];
  }

  lemma {:induction false} OneOccurrence(s: seq<Room>, r: Room)
    requires AllDifferent(s)
    ensures multiset(s)[r] <= 1
  {
    if s == [] {
    } else {
      var n := |s| - 1;
      assert s == s[..n] + [s[n]];
      OneOccurrence(s[..n], r);
      if s[n] == r {
        assert r !in s[..n];
      }
    }
  }

  /** The places before `i` hold the newest rooms, newest first. */
  ghost predicate SortedUpto(rooms: seq<Room>, i: nat) {
    forall k, l :: 0 <= k < i && k < l < |rooms| ==> rooms[k].createdAt >= rooms[l].createdAt
  }

  /** Of the rooms at places `i` to `j - 1`, the first is the newest. */
  ghost predicate NewestFrom(rooms: seq<Room>, i: nat, j: nat) {
    forall l :: i < l < j && l < |rooms| ==> rooms[i].createdAt >= rooms[l].createdAt
  }

  /** The inner loop: the newest of the rooms from `i` on comes to place `i`. */
  method SelectNewest(a: array<Room>, i: nat)
    requires i < a.Length && SortedUpto(a[..], i)
    modifies a
    ensures SortedUpto(a[..], i + 1) && multiset(a[..]) == multiset(old(a[..]))
  {
    var j := i + 1;
    while j < a.Length
      invariant i < j <= a.Length && SortedUpto(a[..], i) && NewestFrom(a[..], i, j)
      invariant multiset(a[..]) == multiset(old(a[..]))
    {
      if a[i].createdAt < a[j].createdAt {
        ghost var before := a[..];
        SwapBehind(before, i, j);
        a[i], a[j] := a[j], a[i];
        assert a[..] == before[i := before[j]][j := before[i]];
      }
      j := j + 1;
    }
  }

  lemma SwapBehind(rooms: seq<Room>, i: nat, j: nat)
    requires i < j < |rooms| && SortedUpto(rooms, i) && NewestFrom(rooms, i, j)
    requires rooms[i].createdAt < rooms[j].createdAt
    ensures SortedUpto(rooms[i := rooms[j]][j := rooms[i]], i)
    ensures NewestFrom(rooms[i := rooms[j]][j := rooms[i]], i, j + 1)
    ensures multiset(rooms[i := rooms[j]][j := rooms[i]]) == multiset(rooms)
  {
  }

  /** The in-place exchange sort. */
  method SortNewestFirst(a: array<Room>)
    modifies a
    ensures NewestFirst(a[..]) && multiset(a[..]) == multiset(old(a[..]))
  {
    var i := 0;
    while i < a.Length - 1
      invariant 0 <= i && (a.Length > 0 ==> i <= a.Length - 1)
      invariant SortedUpto(a[..], i) && multiset(a[..]) == multiset(old(a[..]))
    {
      SelectNewest(a, i);
      i := i + 1;
    }
  }

  // ----- what the listing promises -----

  /** With distinct creation times there is only one listing, whatever order the map was walked in. */
  lemma {:induction false} ListingUnique(rooms: set<Room>, list: seq<Room>, other: seq<Room>)
    requires Listing(rooms, list) && Listing(rooms, other)
    requires forall r, s :: r in rooms && s in rooms && r != s ==> r.createdAt != s.createdAt
    ensures list == other
    decreases |list|
  {
    if list == [] {
      assert forall k :: 0 <= k < |other| ==> other[k] in rooms;
    } else {
      assert list[0] in rooms;
      assert other != [];
      assert other[0] in rooms;
      assert list[0] == other[0] by {
        var k :| 0 <= k < |other| && other[k] == list[0];
        var l :| 0 <= l < |list| && list[l] == other[0];
      }
      ListingTail(rooms, list);
      ListingTail(rooms, other);
      ListingUnique(rooms - {list[0]}, list[1..], other[1..]);
    }
  }

  lemma ListingTail(rooms: set<Room>, list: seq<Room>)
    requires Listing(rooms, list) && list != []
    ensures Listing(rooms - {list[0]}, list[1..])
  {
    assert list == [list[0]] + list[1..];
  }

  lemma {:induction false} ListingSize(rooms: set<Room>, list: seq<Room>)
    requires Listing(rooms, list)
    ensures |rooms| == |list|
    decreases |list|
  {
    if list == [] {
      assert forall r :: r in rooms ==> r in list;
    } else {
      ListingTail(rooms, list);
      ListingSize(rooms - {list[0]}, list[1..]);
      assert list[0] in rooms;
    }
  }

  /** Two rooms of the same age can be listed either way round. */
  lemma TiesAreFree(rooms: set<Room>, list: seq<Room>, i: nat, j: nat)
    requires Listing(rooms, list) && i < j < |list| && list[i].createdAt == list[j].createdAt
    ensures Listing(rooms, list[i := list[j]][j := list[i]]) && list[i := list[j]][j := list[i]] != list
  {
    var other := list[i := list[j]][j := list[i]];
    assert forall k :: 0 <= k < |list| ==> other[k].createdAt == list[k].createdAt;
    SwapAllDifferent(list, i, j);
    assert other[i] != list[i];
  }

  lemma SwapAllDifferent(list: seq<Room>, i: nat, j: nat)
    requires AllDifferent(list) && i < j < |list|
    ensures var other := list[i := list[j]][j := list[i]];
            AllDifferent(other) && (set r | r in other) == set r | r in list
  {
    var other := list[i := list[j]][j := list[i]];
    forall r ensures r in other <==> r in list {
      if r in list {
        var k :| 0 <= k < |list| && list[k] == r;
        assert other[if k == i then j else if k == j then i else k] == r;
      }
    }
  }

  /** The listing depends on nothing but the rooms exactly when no two of them are of the same age. */
  lemma ListingUniqueIff(rooms: set<Room>, list: seq<Room>)
    requires Listing(rooms, list)
    ensures (forall other :: Listing(rooms, other) ==> other == list)
            <==> forall r, s :: r in rooms && s in rooms && r != s ==> r.createdAt != s.createdAt
  {
    if r, s :| r in rooms && s in rooms && r != s && r.createdAt == s.createdAt {
      TieIsFree(rooms, list, r, s);
    } else {
      forall other | Listing(rooms, other) ensures other == list {
        ListingUnique(rooms, list, other);
      }
    }
  }

  lemma TieIsFree(rooms: set<Room>, list: seq<Room>, r: Room, s: Room)
    requires Listing(rooms, list) && r in rooms && s in rooms && r != s && r.createdAt == s.createdAt
    ensures exists other :: Listing(rooms, other) && other != list
  {
    var i :| 0 <= i < |list| && list[i] == r;
    var j :| 0 <= j < |list| && list[j] == s;
    TiesAreFree(rooms, list, if i < j then i else j, if i < j then j else i);
  }

  /** The pages at the offsets `from`, `from + limit`, ... up to the end. */
  function Pages(list: seq<Room>, limit: nat, from: nat): seq<Room>
    requires limit > 0
    decreases |list| - from
  {
    if from >= |list| then [] else Page(list, limit, from) + Pages(list, limit, from + limit)
  }

  /** Successive pages neither skip nor repeat a room. */
  lemma {:induction false} PagesTile(list: seq<Room>, limit: nat, from: nat)
    requires limit > 0 && from <= |list|
    ensures Pages(list, limit, from) == list[from..]
    decreases |list| - from
  {
    if from + limit >= |list| {
    } else {
      PagesTile(list, limit, from + limit);
    }
  }
}
