/** A client of the store: the routes called one after another, as an app
    session would, with what each call is then known to return. */
module Scenarios {
  import opened Requests
  import opened Tables
  import opened Guards
  import opened Chats

  const A := Caller(1, "a@x.com")
  const B := Caller(2, "b@x.com")
  const People := [Member(1, "a@x.com"), Member(2, "b@x.com")]

  function Trip(id: int): Chat { Chat(id, "Trip", "a@x.com") }

  lemma TripAddPasses(id: int)
    requires 0 < id && InInt4(id)
    ensures AddMemberCheck(People, [Trip(id)], [Membership(id, 1)], Num(id), Some("b@x.com"), A)
         == Pass(Membership(id, 2))
  {
    assert MemberIdOf(People, "b@x.com") == Some(2);
  }

  lemma TripListsBoth(id: int)
    requires InInt4(id)
    ensures ListMembers(People, [Trip(id)], [Membership(id, 1), Membership(id, 2)], ShowInt(id))
         == MemberList(2, ["a@x.com", "b@x.com"])
  {
    ParseShowInt(id);
    var rows := [Membership(id, 1), Membership(id, 2)];
    assert People[1..][1..] == [];
    assert EmailsOf(People, 1) == ["a@x.com"];
    assert EmailsOf(People, 2) == ["b@x.com"];
    assert rows[1..] == [Membership(id, 2)] && rows[1..][1..] == [];
    assert JoinEmails(People, rows[1..], id) == ["b@x.com"];
    assert JoinEmails(People, rows, id) == ["a@x.com", "b@x.com"];
  }

  lemma TripRemovals(id: int)
    requires InInt4(id)
    ensures var rows := [Membership(id, 1), Membership(id, 2)];
      && RemoveMemberCheck(People, [Trip(id)], rows, ShowInt(id), "a@x.com", B) == Fail(Error(404, NotOwner))
      && RemoveMemberCheck(People, [Trip(id)], rows, ShowInt(id), "b@x.com", A) == Pass(Membership(id, 2))
  {
    ParseShowInt(id);
    assert MemberIdOf(People, "a@x.com") == Some(1);
    assert MemberIdOf(People, "b@x.com") == Some(2);
  }

  lemma TripDeleteAndAfter(id: int)
    requires InInt4(id)
    ensures DeleteChatCheck([Trip(id)], ShowInt(id), Num(id), A) == Pass(id)
    ensures ListMembers(People, [], [], ShowInt(id)) == Error(404, ChatNotFound)
  {
    ParseShowInt(id);
  }

  /** a@x.com opens a session and creates "Trip". */
  method CreateTrip() returns (store: ChatStore, id: int)
    ensures fresh(store) && store.Valid() && store.members == People
    ensures 0 < id && InInt4(id) && store.chats == [Trip(id)] && store.chatMembers == [Membership(id, 1)]
  {
    store := new ChatStore(People, []);
    var created := store.CreateChat(Some("Trip"), A, Healthy);
    assert EmailOf(People, 1) == Some("a@x.com");
    id := created.chatId;
  }

  /** a@x.com adds b@x.com to "Trip". */
  method AddToTrip(store: ChatStore, id: int)
    requires store.Valid() && store.members == People && 0 < id && InInt4(id)
    requires store.chats == [Trip(id)] && store.chatMembers == [Membership(id, 1)]
    modifies store
    ensures store.Valid() && store.chats == [Trip(id)]
    ensures store.chatMembers == [Membership(id, 1), Membership(id, 2)]
  {
    TripAddPasses(id);
    var added := store.AddMember(Num(id), Some("b@x.com"), A, Healthy);
  }

  /** b@x.com is refused removing a@x.com; a@x.com then removes b@x.com. */
  method RemoveFromTrip(store: ChatStore, id: int) returns (refused: Response, removed: Response)
    requires InInt4(id) && store.Valid() && store.members == People && store.chats == [Trip(id)]
    requires store.chatMembers == [Membership(id, 1), Membership(id, 2)]
    modifies store
    ensures store.Valid() && store.chats == [Trip(id)] && store.chatMembers == [Membership(id, 1)]
    ensures refused == Error(404, NotOwner) && removed == Done
  {
    TripRemovals(id);
    refused := store.RemoveMember(ShowInt(id), "a@x.com", B, Healthy);
    removed := store.RemoveMember(ShowInt(id), "b@x.com", A, Healthy);
    var rows := [Membership(id, 1), Membership(id, 2)];
    var keep := (p: Membership) => p != Membership(id, 2);
    assert rows[1..] == [Membership(id, 2)] && rows[1..][1..] == [];
    assert Filter(rows[1..], keep) == [];
    assert Filter(rows, keep) == [Membership(id, 1)];
  }

  /** a@x.com deletes "Trip". */
  method DeleteTrip(store: ChatStore, id: int) returns (deleted: Response)
    requires InInt4(id) && store.Valid() && store.members == People && store.chats == [Trip(id)]
    requires store.chatMembers == [Membership(id, 1)]
    modifies store
    ensures store.Valid() && store.chats == [] && store.chatMembers == []
    ensures deleted == Done
  {
    TripDeleteAndAfter(id);
    deleted := store.DeleteChat(ShowInt(id), Num(id), A, Healthy);
  }

  /** Member a@x.com creates "Trip", adds b@x.com and lists the members;
      b@x.com may not remove a@x.com, a@x.com removes b@x.com, deletes the
      chat with the body repeating the path id, and the chat is gone. */
  method TripSession() returns (listed: Response, refused: Response, removed: Response,
                                deleted: Response, after: Response)
    ensures listed == MemberList(2, ["a@x.com", "b@x.com"])
    ensures refused == Error(404, NotOwner)
    ensures removed == Done && deleted == Done
    ensures after == Error(404, ChatNotFound)
  {
    var store, id := CreateTrip();
    AddToTrip(store, id);
    TripListsBoth(id);
    listed := store.GetMembers(ShowInt(id));
    refused, removed := RemoveFromTrip(store, id);
    deleted := DeleteTrip(store, id);
    TripDeleteAndAfter(id);
    after := store.GetMembers(ShowInt(id));
  }
}
