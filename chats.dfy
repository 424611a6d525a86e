/** The chat routes that write: each runs its guard chain, then issues its
    INSERT or DELETE statements one at a time against the in-memory tables.
    The statements are separate queries with no transaction around them, so
    a failing statement leaves the earlier ones applied. */
module Chats {
  import opened Requests
  import opened Tables
  import opened Guards

  /** Which write statement of a route fails ("SQL Error" from its catch),
      counting the route's writes from 1; `Healthy` when none does. For
      PUT /, step 2 is the push-token lookup and notification after the
      insert. */
  datatype Fault = Healthy | FailsAt(step: nat)

  class ChatStore {
    /** Members: registration happens elsewhere, no chat route writes it. */
    const members: seq<Member>
    var chats: seq<Chat>
    var chatMembers: seq<Membership>
    var messages: seq<Message>

    /** Keys are unique, no membership is recorded twice, and every
        membership names an existing chat and member. */
    ghost predicate Valid()
      reads this
    {
      && UniqueMembers(members)
      && UniqueBy(chats, ChatKey)
      && NoDuplicates(chatMembers)
      && forall p :: p in chatMembers ==> p.chatId in ChatIds(chats) && p.memberId in MemberIds(members)
    }

    constructor (members: seq<Member>, messages: seq<Message>)
      requires UniqueMembers(members)
      ensures Valid()
      ensures this.members == members && this.messages == messages
      ensures chats == [] && chatMembers == []
    {
      this.members := members;
      this.messages := messages;
      chats := [];
      chatMembers := [];
    }

    /** POST /: create a chat named `name` owned by the caller's stored
        email, then record the caller as its first member. The serial key
        never exceeds the column's range: once a chat holds the largest
        key, the chat insert fails. */
    method CreateChat(name: Option<string>, caller: Caller, fault: Fault) returns (r: Response)
      requires Valid()
      modifies this
      ensures Valid()
      ensures messages == old(messages)
      ensures var v := CreateCheck(members, name, caller);
        var exhausted := IdBound(old(chats)) > Int4Max;
        && (v.Fail? ==> r == v.response && unchanged(this))
        && (v.Pass? && (fault == FailsAt(1) || exhausted) ==> r == Error(400, SqlError) && unchanged(this))
        && (v.Pass? && !exhausted && fault == FailsAt(2) ==>
              && r == Error(400, SqlError)
              && |chats| == |old(chats)| + 1 && chats[..|old(chats)|] == old(chats)
              && 0 < chats[|old(chats)|].chatId <= Int4Max
              && chats[|old(chats)|].chatId !in ChatIds(old(chats))
              && chats[|old(chats)|].name == name.value && chats[|old(chats)|].owner == v.value
              && chatMembers == old(chatMembers))
        && (v.Pass? && !exhausted && fault != FailsAt(1) && fault != FailsAt(2) ==>
              && r.Created? && 0 < r.chatId <= Int4Max && r.chatId !in ChatIds(old(chats))
              && chats == old(chats) + [Chat(r.chatId, name.value, v.value)]
              && chatMembers == old(chatMembers) + [Membership(r.chatId, caller.memberId)])
    {
      var v := CreateCheck(members, name, caller);
      if v.Fail? {
        return v.response;
      }
      if fault == FailsAt(1) || IdBound(chats) > Int4Max {
        return Error(400, SqlError);
      }
      // INSERT INTO Chats(Name, Email) ... RETURNING ChatId: any unused key
      // of the column's range.
      var id :| 0 < id <= Int4Max && id !in ChatIds(chats) by {
        assert IdBound(chats) !in ChatIds(chats);
      }
      ghost var before := chats;
      chats := chats + [Chat(id, name.value, v.value)];
      assert ChatIds(chats) == ChatIds(before) + {id};
      if fault == FailsAt(2) {
        return Error(400, SqlError);
      }
      // INSERT INTO ChatMembers(ChatId, MemberId)
      chatMembers := chatMembers + [Membership(id, caller.memberId)];
      return Created(id);
    }

    /** PUT /: the owner adds the member with the given email. The insert
        stays even when the push step after it fails. */
    method AddMember(chatId: Json, email: Option<string>, caller: Caller, fault: Fault) returns (r: Response)
      requires Valid()
      modifies this
      ensures Valid()
      ensures chats == old(chats) && messages == old(messages)
      ensures var v := AddMemberCheck(members, old(chats), old(chatMembers), chatId, email, caller);
        && (v.Fail? ==> r == v.response && chatMembers == old(chatMembers))
        && (v.Pass? && fault == FailsAt(1) ==> r == Error(400, SqlError) && chatMembers == old(chatMembers))
        && (v.Pass? && fault != FailsAt(1) ==>
              && chatMembers == old(chatMembers) + [v.value]
              && r == (if fault == FailsAt(2) then Error(400, PushError) else Done))
    {
      var v := AddMemberCheck(members, chats, chatMembers, chatId, email, caller);
      if v.Fail? {
        return v.response;
      }
      if fault == FailsAt(1) {
        return Error(400, SqlError);
      }
      chatMembers := chatMembers + [v.value];
      // SELECT token FROM Push_Token, then the notification.
      if fault == FailsAt(2) {
        return Error(400, PushError);
      }
      return Done;
    }

    /** DELETE /:chatId/:email: the owner removes a member, or a member
        removes themself. Only that one membership row goes. */
    method RemoveMember(chatId: string, email: string, caller: Caller, fault: Fault) returns (r: Response)
      requires Valid()
      modifies this
      ensures Valid()
      ensures chats == old(chats) && messages == old(messages)
      ensures var v := RemoveMemberCheck(members, old(chats), old(chatMembers), chatId, email, caller);
        && (v.Fail? ==> r == v.response && chatMembers == old(chatMembers))
        && (v.Pass? && fault == FailsAt(1) ==> r == Error(400, SqlError) && chatMembers == old(chatMembers))
        && (v.Pass? && fault != FailsAt(1) ==>
              && r == Done
              && chatMembers == Filter(old(chatMembers), (p: Membership) => p != v.value)
              && forall p :: p in chatMembers <==> p in old(chatMembers) && p != v.value)
    {
      var v := RemoveMemberCheck(members, chats, chatMembers, chatId, email, caller);
      if v.Fail? {
        return v.response;
      }
      if fault == FailsAt(1) {
        return Error(400, SqlError);
      }
      var gone := v.value;
      FilterKeepsNoDuplicates(chatMembers, (p: Membership) => p != gone);
      chatMembers := Filter(chatMembers, (p: Membership) => p != gone);
      return Done;
    }

    /** The three DELETE statements of DELETE /:chatId, in the order the
        route issues them: memberships, messages, then the chat row. */
    method Cascade(id: int, fault: Fault) returns (r: Response)
      requires Valid()
      modifies this
      ensures Valid()
      ensures fault == FailsAt(1) ==> r == Error(400, SqlError) && unchanged(this)
      ensures fault == FailsAt(2) ==>
        && r == Error(400, SqlError)
        && chatMembers == Filter(old(chatMembers), (p: Membership) => p.chatId != id)
        && messages == old(messages) && chats == old(chats)
      ensures fault == FailsAt(3) ==>
        && r == Error(400, SqlError)
        && chatMembers == Filter(old(chatMembers), (p: Membership) => p.chatId != id)
        && messages == Filter(old(messages), (m: Message) => m.chatId != id)
        && chats == old(chats)
      ensures fault != FailsAt(1) && fault != FailsAt(2) && fault != FailsAt(3) ==>
        && r == Done
        && chatMembers == Filter(old(chatMembers), (p: Membership) => p.chatId != id)
        && messages == Filter(old(messages), (m: Message) => m.chatId != id)
        && chats == Filter(old(chats), (c: Chat) => c.chatId != id)
    {
      if fault == FailsAt(1) {
        return Error(400, SqlError);
      }
      FilterKeepsNoDuplicates(chatMembers, (p: Membership) => p.chatId != id);
      chatMembers := Filter(chatMembers, (p: Membership) => p.chatId != id);
      if fault == FailsAt(2) {
        return Error(400, SqlError);
      }
      messages := Filter(messages, (m: Message) => m.chatId != id);
      if fault == FailsAt(3) {
        return Error(400, SqlError);
      }
      FilterKeepsUniqueBy(chats, (c: Chat) => c.chatId != id, ChatKey);
      ghost var before := chats;
      chats := Filter(chats, (c: Chat) => c.chatId != id);
      assert ChatIds(chats) == ChatIds(before) - {id};
      return Done;
    }

    /** DELETE /:chatId as written: the owner check reads the body's chatId
        while the deletes use the path's. */
    method DeleteChat(chatId: string, bodyChatId: Json, caller: Caller, fault: Fault) returns (r: Response)
      requires Valid()
      modifies this
      ensures Valid()
      ensures var v := DeleteChatCheck(old(chats), chatId, bodyChatId, caller);
        && (v.Fail? ==> r == v.response && unchanged(this))
        && (v.Pass? && fault == FailsAt(1) ==> r == Error(400, SqlError) && unchanged(this))
        && (v.Pass? && fault != FailsAt(1) ==>
              && chatMembers == Filter(old(chatMembers), (p: Membership) => p.chatId != v.value)
              && (fault == FailsAt(2) ==> r == Error(400, SqlError) && messages == old(messages) && chats == old(chats))
              && (fault != FailsAt(2) ==> messages == Filter(old(messages), (m: Message) => m.chatId != v.value))
              && (fault == FailsAt(3) ==> r == Error(400, SqlError) && chats == old(chats))
              && (fault != FailsAt(2) && fault != FailsAt(3) ==>
                    r == Done && chats == Filter(old(chats), (c: Chat) => c.chatId != v.value)))
    {
      var v := DeleteChatCheck(chats, chatId, bodyChatId, caller);
      if v.Fail? {
        return v.response;
      }
      r := Cascade(v.value, fault);
    }

    /** DELETE /:chatId with the owner check on the path's chat, as the
        route evidently intends. */
    method DeleteOwnedChat(chatId: string, caller: Caller, fault: Fault) returns (r: Response)
      requires Valid()
      modifies this
      ensures Valid()
      ensures var v := DeleteOwnChatCheck(old(chats), chatId, caller);
        && (v.Fail? ==> r == v.response && unchanged(this))
        && (v.Pass? ==> exists c :: c in old(chats) && c.chatId == v.value && IsOwner(c, caller.email))
        && (v.Pass? && fault == FailsAt(1) ==> r == Error(400, SqlError) && unchanged(this))
        && (v.Pass? && fault != FailsAt(1) ==>
              && chatMembers == Filter(old(chatMembers), (p: Membership) => p.chatId != v.value)
              && (fault == FailsAt(2) ==> r == Error(400, SqlError) && messages == old(messages) && chats == old(chats))
              && (fault != FailsAt(2) ==> messages == Filter(old(messages), (m: Message) => m.chatId != v.value))
              && (fault == FailsAt(3) ==> r == Error(400, SqlError) && chats == old(chats))
              && (fault != FailsAt(2) && fault != FailsAt(3) ==>
                    r == Done && chats == Filter(old(chats), (c: Chat) => c.chatId != v.value)))
    {
      var v := DeleteOwnChatCheck(chats, chatId, caller);
      if v.Fail? {
        return v.response;
      }
      r := Cascade(v.value, fault);
    }

    /** GET /:chatId on the current tables. */
    function GetMembers(chatId: string): (r: Response)
      reads this
      requires Valid()
      ensures r.MemberList? ==> IsNumeric(chatId) && NoDuplicates(r.emails)
      ensures r.MemberList? ==> forall e :: e in r.emails <==>
        exists m :: Membership(ParseInt(chatId), m) in chatMembers && Member(m, e) in members
    {
      ListMembersDistinct(members, chats, chatMembers, chatId);
      ListMembers(members, chats, chatMembers, chatId)
    }

    /** GET / on the current tables. */
    function GetChats(caller: Caller): (r: Response)
      reads this
      requires Valid()
      ensures r.ChatList? ==> UniqueBy(r.chats, ChatKey)
      ensures r.ChatList? ==> forall c :: c in r.chats <==> c in chats && Membership(c.chatId, caller.memberId) in chatMembers
    {
      ListChatsOnce(members, chats, chatMembers, caller);
      ListChats(members, chats, chatMembers, caller)
    }
  }
}
