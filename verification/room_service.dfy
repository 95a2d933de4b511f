/** The room service: bounds on new rooms, the listing's parameters, and the owner's place. */
module RoomService {
  import opened Models
  import RoomStore
  import opened Lobby

  const MAX_RETRIES: nat := 10

  function OrStandard(roleConfigID: string): string {
    if roleConfigID == "" then "standard" else roleConfigID
  }

  /** `codes` are the codes drawn, one a try. */
  method CreateRoom(store: RoomStore.Store, codes: seq<string>, maxPlayers: int, isPublic: bool, roleConfigID: string,
                    selectedRoles: map<string, int>, now: int)
    returns (error: Option<Error>, room: Room?)
    requires store.Valid() && |codes| == 10
    modifies store
    ensures store.Valid()
    ensures error == if maxPlayers < 6 || maxPlayers > 30 then Some(InvalidMaxPlayers)
                     else if forall i :: 0 <= i < |codes| ==> codes[i] in old(store.rooms) then Some(NoFreeCode) else None
    ensures error.Some? ==> room == null && store.rooms == old(store.rooms)
    ensures error == None ==>
              && room != null && fresh(room) && room.Valid() && room.View() == RoomView(Waiting, [], None)
              && room.maxPlayers == maxPlayers && room.createdAt == now && room.isPublic == isPublic
              && room.roleConfigID == (if roleConfigID == "" then "standard" else roleConfigID)
              && room.selectedRoles == selectedRoles
              && (exists i :: 0 <= i < |codes| && room.code == codes[i]
                              && forall k :: 0 <= k < i ==> codes[k] in old(store.rooms))
              && room.code !in old(store.rooms)
              && store.rooms == old(store.rooms)[room.code := room]
  {
    if maxPlayers < 6 || maxPlayers > 30 { return Some(InvalidMaxPlayers), null; }
    var i := 0;
    while i < MAX_RETRIES && codes[i] in store.rooms
      invariant 0 <= i <= MAX_RETRIES
      invariant forall k :: 0 <= k < i ==> codes[k] in store.rooms
    {
      i := i + 1;
    }
    if i == MAX_RETRIES { return Some(NoFreeCode), null; }
    assert codes[i] in codes;
    room := new Room(codes[i], maxPlayers, isPublic, OrStandard(roleConfigID), selectedRoles, now);
    error := store.Create(room);
  }

  /** The source clamps what callers pass; no page is cut out of bounds, and none is longer than 100. */
  method GetPublicRooms(store: RoomStore.Store, status: string, limit: int, offset: int)
    returns (error: Option<Error>, page: seq<Room>, total: nat, usedLimit: nat, usedOffset: nat)
    requires store.Valid()
    ensures usedLimit == if limit <= 0 then 50 else if limit > 100 then 100 else limit
    ensures usedOffset == if offset < 0 then 0 else offset
    ensures error == if status in {"", "WAITING", "IN_PROGRESS"} then None else Some(InvalidStatusFilter)
    ensures error.Some? ==> page == []
    ensures error == None ==>
              && total == |store.Matching(status)| && |page| <= 100
              && exists list :: RoomStore.Listing(store.Matching(status), list)
                                && page == RoomStore.Page(list, usedLimit, usedOffset)
    ensures forall r :: r in page ==>
              r.isPublic && (status == "WAITING" ==> r.status == Waiting) && (status == "IN_PROGRESS" ==> r.status == InProgress)
  {
    usedLimit := if limit <= 0 then 50 else if limit > 100 then 100 else limit;
    usedOffset := if offset < 0 then 0 else offset;
    error, page, total := None, [], 0;
    if status != "" && status != "WAITING" && status != "IN_PROGRESS" {
      error := Some(InvalidStatusFilter);
      return;
    }
    page, total := store.ListPublicRooms(status, usedLimit, usedOffset);
  }

  lemma {:induction false} NextOwnerIs(ps: seq<PlayerView>, oldOwner: Id, k: nat)
    requires k <= |ps| && (k < |ps| ==> ps[k].id != oldOwner)
    requires forall i :: 0 <= i < k ==> ps[i].id == oldOwner
    ensures NextOwner(ps, oldOwner) == if k < |ps| then Some(k) else None
  {
    if k == 0 {
    } else {
      NextOwnerIs(ps[1..], oldOwner, k - 1);
    }
  }

  method FindNextOwner(ps: seq<Player>, oldOwnerID: Id) returns (k: nat)
    ensures k <= |ps|
    ensures NextOwner(Views(ps), oldOwnerID) == if k < |ps| then Some(k) else None
  {
    k := 0;
    while k < |ps| && ps[k].id == oldOwnerID
      invariant 0 <= k <= |ps|
      invariant forall i :: 0 <= i < k ==> ps[i].id == oldOwnerID
    {
      k := k + 1;
    }
    NextOwnerIs(Views(ps), oldOwnerID, k);
  }

  method SetOwner(ps: seq<Player>, k: nat)
    requires DistinctPlayers(ps) && k < |ps|
    modifies ps
    ensures Views(ps) == OwnedBy(old(Views(ps)), k)
  {
    for i := 0 to |ps|
      invariant forall j :: 0 <= j < i ==> ps[j].View() == old(ps[j].View()).(isOwner := j == k)
      invariant forall j :: i <= j < |ps| ==> ps[j].View() == old(ps[j].View())
    {
      ps[i].isOwner := ps[i].id == ps[k].id;
    }
  }

  /** The first player other than the old owner becomes the only owner. */
  method TransferOwnership(room: Room?, oldOwnerID: Id) returns (error: Option<Error>, newOwner: Player?)
    requires room != null ==> room.Valid()
    modifies PlayerFrame(room)
    ensures room == null ==> error == Some(RoomNotFound)
    ensures room != null ==>
              && Refines(old(room.View()), room.View(), error, Lobby.TransferOwnership(old(room.View()), oldOwnerID))
              && newOwner == match NextOwner(old(Views(room.players)), oldOwnerID)
                             case None => null
                             case Some(k) => room.players[k]
  {
    if room == null { return Some(RoomNotFound), null; }
    var k := FindNextOwner(room.players, oldOwnerID);
    if k == |room.players| { return Some(NoOtherPlayer), null; }
    SetOwner(room.players, k);
    return None, room.players[k];
  }
}
