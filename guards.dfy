/** The read-only part of every chat route: the ordered guard steps that run
    before the first write, each ending the request with its own status and
    message, and the two GET listings. Each chain is a pure function of the
    tables and the request; the first guard that fails decides the response. */
module Guards {
  import opened Requests
  import opened Tables

  /** The identity the JWT carries (`request.decoded`). */
  datatype Caller = Caller(memberId: int, email: string)

  /** What a route sends back. Errors carry a status and a message; the
      success bodies are `{success: true}`, `{success: true, chatID}` and the
      `{rowCount, rows}` listings, all with status 200. */
  datatype Response =
    | Error(status: int, message: string)
    | Done
    | Created(chatId: int)
    | MemberList(rowCount: nat, emails: seq<string>)
    | ChatList(rowCount: nat, chats: seq<Chat>)

  /** Outcome of a guard chain: the rows the writes will use, or the response
      of the first guard that failed. */
  datatype Check<T> = Pass(value: T) | Fail(response: Response)

  const MissingInfo := "Missing required information"
  const Malformed := "Malformed parameter. chatId must be a number"
  const ChatNotFound := "Chat ID not found"
  const NotOwner := "User is not owner of chat room"
  const EmailNotFound := "email not found"
  const AlreadyJoined := "user already joined"
  const NotInChat := "user not in chat"
  const MemberNotFound := "Member Not Found"
  const SqlError := "SQL Error"
  const PushError := "SQL Error on select from push token"

  predicate IsOwner(chat: Chat, email: string) {
    chat.owner == email
  }

  /** A member may be removed by the chat's owner or by themself. */
  predicate CanRemove(chat: Chat, callerEmail: string, targetEmail: string) {
    IsOwner(chat, callerEmail) || callerEmail == targetEmail
  }

  /** A `:chatId` path segment that passes `isNaN` and that the chat query
      can bind to the `ChatId` column; a numeric segment outside the
      column's range makes that query fail with "SQL Error". */
  predicate BindsPath(chatId: string) {
    IsNumeric(chatId) && InInt4(ParseInt(chatId))
  }

  // ---------------------------------------------------------------- POST /

  /** POST / up to the insert: the name must be present, then the caller's
      email is read from Members. An unknown caller leaves `rows[0]`
      undefined; the TypeError lands in the query's catch, hence "SQL Error". */
  function CreateCheck(members: seq<Member>, name: Option<string>, caller: Caller): (r: Check<string>)
    ensures !Present(name) ==> r == Fail(Error(400, MissingInfo))
    ensures Present(name) && caller.memberId !in MemberIds(members) ==> r == Fail(Error(400, SqlError))
    ensures r.Pass? <==> Present(name) && caller.memberId in MemberIds(members)
    ensures r.Pass? ==> Member(caller.memberId, r.value) in members
  {
    if !Present(name) then Fail(Error(400, MissingInfo))
    else
      match EmailOf(members, caller.memberId)
      case None => Fail(Error(400, SqlError))
      case Some(email) => Pass(email)
  }

  // ----------------------------------------------------------------- PUT /

  /** PUT / up to the insert. The body's chatId is tested for truthiness only,
      never with `isNaN`; a string that is not an integer fails in the
      database. The second owner query's "Chat ID not found" branch repeats
      the existence check before it and cannot fire on its own. */
  function AddMemberCheck(members: seq<Member>, chats: seq<Chat>, rows: seq<Membership>,
                          chatId: Json, email: Option<string>, caller: Caller): (r: Check<Membership>)
    ensures r.Pass? ==>
      && Truthy(chatId) && Present(email)
      && BindInt(chatId) == IntParam(r.value.chatId)
      && r.value.chatId in ChatIds(chats)
      && IsOwner(FindChat(chats, r.value.chatId).value, caller.email)
      && Member(r.value.memberId, email.value) in members
      && r.value !in rows
    ensures r.Fail? ==> r.response.Error? && r.response.status in {400, 404}
  {
    if !Truthy(chatId) || !Present(email) then Fail(Error(400, MissingInfo))
    else
      match BindInt(chatId)
      case CastError => Fail(Error(400, SqlError))
      case NullParam => Fail(Error(404, ChatNotFound))
      case IntParam(id) =>
        match FindChat(chats, id)
        case None => Fail(Error(404, ChatNotFound))
        case Some(chat) =>
          if !IsOwner(chat, caller.email) then Fail(Error(404, NotOwner))
          else
            match MemberIdOf(members, email.value)
            case None => Fail(Error(404, EmailNotFound))
            case Some(memberId) =>
              if Membership(id, memberId) in rows then Fail(Error(400, AlreadyJoined))
              else Pass(Membership(id, memberId))
  }

  /** Each failure names the first guard that failed: the ones before it
      passed. */
  lemma AddMemberFailures(members: seq<Member>, chats: seq<Chat>, rows: seq<Membership>,
                          chatId: Json, email: Option<string>, caller: Caller)
    requires UniqueBy(chats, ChatKey) && UniqueMembers(members)
    ensures var r := AddMemberCheck(members, chats, rows, chatId, email, caller);
      && (r == Fail(Error(400, MissingInfo)) <==> !Truthy(chatId) || !Present(email))
      && (r == Fail(Error(400, SqlError)) <==> Truthy(chatId) && Present(email) && BindInt(chatId).CastError?)
      && (r == Fail(Error(404, ChatNotFound)) <==>
            Truthy(chatId) && Present(email) && BindInt(chatId).IntParam?
            && BindInt(chatId).n !in ChatIds(chats))
      && (r == Fail(Error(404, NotOwner)) <==>
            Truthy(chatId) && Present(email)
            && exists c :: c in chats && BindInt(chatId) == IntParam(c.chatId) && !IsOwner(c, caller.email))
      && (r == Fail(Error(404, EmailNotFound)) <==>
            Truthy(chatId) && Present(email)
            && (exists c :: c in chats && BindInt(chatId) == IntParam(c.chatId) && IsOwner(c, caller.email))
            && forall m :: m in members ==> m.email != email.value)
      && (r == Fail(Error(400, AlreadyJoined)) <==>
            Truthy(chatId) && Present(email)
            && (exists c :: c in chats && BindInt(chatId) == IntParam(c.chatId) && IsOwner(c, caller.email))
            && exists m :: Member(m, email.value) in members && Membership(BindInt(chatId).n, m) in rows)
  {
    var r := AddMemberCheck(members, chats, rows, chatId, email, caller);
    if Truthy(chatId) && Present(email) && BindInt(chatId).IntParam? {
      var id := BindInt(chatId).n;
      var found := FindChat(chats, id);
      if found.Some? {
        FindChatUnique(chats, found.value);
        forall c | c in chats && c.chatId == id ensures c == found.value {
          FindChatUnique(chats, c);
        }
        var target := MemberIdOf(members, email.value);
        if target.Some? {
          forall m | Member(m, email.value) in members ensures m == target.value {
            MemberIdOfUnique(members, Member(m, email.value));
          }
        }
      }
    }
  }

  /** Success exactly when every guard passes, stated over the tables rather
      than over the lookups. */
  lemma AddMemberSucceedsIff(members: seq<Member>, chats: seq<Chat>, rows: seq<Membership>,
                             chatId: Json, email: Option<string>, caller: Caller, id: int, memberId: int)
    requires UniqueBy(chats, ChatKey) && UniqueMembers(members)
    ensures AddMemberCheck(members, chats, rows, chatId, email, caller) == Pass(Membership(id, memberId))
        <==> && Truthy(chatId) && Present(email) && BindInt(chatId) == IntParam(id)
             && (exists c :: c in chats && c.chatId == id && IsOwner(c, caller.email))
             && Member(memberId, email.value) in members
             && Membership(id, memberId) !in rows
  {
    if Truthy(chatId) && Present(email) && BindInt(chatId) == IntParam(id) {
      forall c | c in chats && c.chatId == id ensures FindChat(chats, id) == Some(c) {
        FindChatUnique(chats, c);
      }
      if Member(memberId, email.value) in members {
        MemberIdOfUnique(members, Member(memberId, email.value));
      }
    }
  }

  /** The owner check runs before the target email is resolved, so a caller
      who does not own the chat learns nothing about the target: the
      response does not depend on the email asked for, on Members or on
      ChatMembers. */
  lemma AddMemberHidesTarget(members: seq<Member>, members': seq<Member>, chats: seq<Chat>,
                             rows: seq<Membership>, rows': seq<Membership>,
                             chatId: Json, email: string, email': string, caller: Caller, chat: Chat)
    requires UniqueBy(chats, ChatKey)
    requires chat in chats && !IsOwner(chat, caller.email) && email != "" && email' != ""
    requires Truthy(chatId) && BindInt(chatId) == IntParam(chat.chatId)
    ensures AddMemberCheck(members, chats, rows, chatId, Some(email), caller)
         == AddMemberCheck(members', chats, rows', chatId, Some(email'), caller)
         == Fail(Error(404, NotOwner))
  {
    FindChatUnique(chats, chat);
  }

  // ------------------------------------------------- DELETE /:chatId/:email

  /** DELETE /:chatId/:email up to the delete. The membership check runs
      before the authorisation check. The second chat query's "Chat ID not
      found" branch cannot fire after the first. */
  function RemoveMemberCheck(members: seq<Member>, chats: seq<Chat>, rows: seq<Membership>,
                             chatId: string, email: string, caller: Caller): (r: Check<Membership>)
    ensures chatId == "" || email == "" ==> r == Fail(Error(400, MissingInfo))
    ensures chatId != "" && email != "" && !IsNumeric(chatId) ==> r == Fail(Error(400, Malformed))
    ensures email != "" && IsNumeric(chatId) && !InInt4(ParseInt(chatId)) ==> r == Fail(Error(400, SqlError))
    ensures email != "" && BindsPath(chatId) && ParseInt(chatId) !in ChatIds(chats) ==> r == Fail(Error(404, ChatNotFound))
    ensures email != "" && BindsPath(chatId) && ParseInt(chatId) in ChatIds(chats)
              && (forall m :: m in members ==> m.email != email)
            ==> r == Fail(Error(404, EmailNotFound))
    ensures r.Pass? ==>
      && BindsPath(chatId) && r.value.chatId == ParseInt(chatId)
      && Member(r.value.memberId, email) in members
      && r.value in rows
      && FindChat(chats, r.value.chatId).Some?
      && CanRemove(FindChat(chats, r.value.chatId).value, caller.email, email)
    ensures r.Fail? ==> r.response.Error? && r.response.status in {400, 404}
  {
    if chatId == "" || email == "" then Fail(Error(400, MissingInfo))
    else if !IsNumeric(chatId) then Fail(Error(400, Malformed))
    else if !BindsPath(chatId) then Fail(Error(400, SqlError))
    else
      var id := ParseInt(chatId);
      match FindChat(chats, id)
      case None => Fail(Error(404, ChatNotFound))
      case Some(chat) =>
        match MemberIdOf(members, email)
        case None => Fail(Error(404, EmailNotFound))
        case Some(memberId) =>
          if Membership(id, memberId) !in rows then Fail(Error(400, NotInChat))
          else if !CanRemove(chat, caller.email, email) then Fail(Error(404, NotOwner))
          else Pass(Membership(id, memberId))
  }

  /** Removal succeeds exactly when the parameters are present and numeric,
      the chat and the target exist, the target is in the chat, and the
      caller owns the chat or is the target. */
  lemma RemoveMemberSucceedsIff(members: seq<Member>, chats: seq<Chat>, rows: seq<Membership>,
                                chatId: string, email: string, caller: Caller, memberId: int)
    requires UniqueBy(chats, ChatKey) && UniqueMembers(members)
    ensures RemoveMemberCheck(members, chats, rows, chatId, email, caller).Pass?
        <==> && email != "" && BindsPath(chatId)
             && (exists c :: c in chats && c.chatId == ParseInt(chatId) && CanRemove(c, caller.email, email))
             && (exists m :: Member(m, email) in members && Membership(ParseInt(chatId), m) in rows)
  {
    if email != "" && BindsPath(chatId) {
      var id := ParseInt(chatId);
      forall c | c in chats && c.chatId == id ensures FindChat(chats, id) == Some(c) {
        FindChatUnique(chats, c);
      }
      forall m | Member(m, email) in members ensures MemberIdOf(members, email) == Some(m) {
        MemberIdOfUnique(members, Member(m, email));
      }
    }
  }

  /** Each failure of DELETE /:chatId/:email names the first guard that
      failed: missing parameter, `isNaN`, the chat query's cast, unknown
      chat, unknown email, target not in the chat, then the caller neither
      owner nor target. */
  lemma RemoveMemberFailures(members: seq<Member>, chats: seq<Chat>, rows: seq<Membership>,
                             chatId: string, email: string, caller: Caller)
    requires UniqueBy(chats, ChatKey) && UniqueMembers(members)
    ensures var r := RemoveMemberCheck(members, chats, rows, chatId, email, caller);
      && (r == Fail(Error(400, MissingInfo)) <==> chatId == "" || email == "")
      && (r == Fail(Error(400, Malformed)) <==> chatId != "" && email != "" && !IsNumeric(chatId))
      && (r == Fail(Error(400, SqlError)) <==> email != "" && IsNumeric(chatId) && !InInt4(ParseInt(chatId)))
      && (r == Fail(Error(404, ChatNotFound)) <==>
            email != "" && BindsPath(chatId) && ParseInt(chatId) !in ChatIds(chats))
      && (r == Fail(Error(404, EmailNotFound)) <==>
            email != "" && BindsPath(chatId) && ParseInt(chatId) in ChatIds(chats)
            && forall m :: m in members ==> m.email != email)
      && (r == Fail(Error(400, NotInChat)) <==>
            email != "" && BindsPath(chatId) && ParseInt(chatId) in ChatIds(chats)
            && exists m :: Member(m, email) in members && Membership(ParseInt(chatId), m) !in rows)
      && (r == Fail(Error(404, NotOwner)) <==>
            email != "" && BindsPath(chatId)
            && (exists c :: c in chats && c.chatId == ParseInt(chatId) && !CanRemove(c, caller.email, email))
            && exists m :: Member(m, email) in members && Membership(ParseInt(chatId), m) in rows)
  {
    if email != "" && BindsPath(chatId) {
      var id := ParseInt(chatId);
      forall c | c in chats && c.chatId == id ensures FindChat(chats, id) == Some(c) {
        FindChatUnique(chats, c);
      }
      forall m | Member(m, email) in members ensures MemberIdOf(members, email) == Some(m) {
        MemberIdOfUnique(members, Member(m, email));
      }
    }
  }

  /** Because the membership check comes first, a caller who neither owns
      the chat nor is the target still learns whether the target is in it:
      400 "user not in chat" if not, 404 "User is not owner" if so. */
  lemma RemoveRevealsMembership(members: seq<Member>, chats: seq<Chat>, rows: seq<Membership>,
                                chat: Chat, target: Member, caller: Caller)
    requires UniqueBy(chats, ChatKey) && UniqueMembers(members)
    requires chat in chats && InInt4(chat.chatId) && target in members && target.email != ""
    requires !IsOwner(chat, caller.email) && caller.email != target.email
    ensures var r := RemoveMemberCheck(members, chats, rows, ShowInt(chat.chatId), target.email, caller);
      && (Membership(chat.chatId, target.memberId) in rows ==> r == Fail(Error(404, NotOwner)))
      && (Membership(chat.chatId, target.memberId) !in rows ==> r == Fail(Error(400, NotInChat)))
  {
    ParseShowInt(chat.chatId);
    FindChatUnique(chats, chat);
    MemberIdOfUnique(members, target);
  }

  /** The owner may remove themself: nothing keeps the owner a member of
      their own chat. */
  lemma OwnerMayLeave(members: seq<Member>, chats: seq<Chat>, rows: seq<Membership>,
                      chat: Chat, caller: Caller)
    requires UniqueBy(chats, ChatKey) && UniqueMembers(members)
    requires chat in chats && InInt4(chat.chatId) && IsOwner(chat, caller.email) && caller.email != ""
    requires Member(caller.memberId, caller.email) in members
    requires Membership(chat.chatId, caller.memberId) in rows
    ensures RemoveMemberCheck(members, chats, rows, ShowInt(chat.chatId), caller.email, caller)
         == Pass(Membership(chat.chatId, caller.memberId))
  {
    ParseShowInt(chat.chatId);
    FindChatUnique(chats, chat);
    MemberIdOfUnique(members, Member(caller.memberId, caller.email));
  }

  // ------------------------------------------------------ DELETE /:chatId

  /** DELETE /:chatId up to the deletes, as written: presence, `isNaN` and
      existence are checked on the path id, but the owner query binds
      `request.body.chatId`. An absent body id binds NULL, which matches no
      chat. */
  function DeleteChatCheck(chats: seq<Chat>, chatId: string, bodyChatId: Json, caller: Caller): (r: Check<int>)
    ensures chatId == "" ==> r == Fail(Error(400, MissingInfo))
    ensures chatId != "" && !IsNumeric(chatId) ==> r == Fail(Error(400, Malformed))
    ensures IsNumeric(chatId) && !InInt4(ParseInt(chatId)) ==> r == Fail(Error(400, SqlError))
    ensures BindsPath(chatId) && ParseInt(chatId) !in ChatIds(chats) ==> r == Fail(Error(404, ChatNotFound))
    ensures BindsPath(chatId) && ParseInt(chatId) in ChatIds(chats) && BindInt(bodyChatId).CastError?
            ==> r == Fail(Error(400, SqlError))
    ensures BindsPath(chatId) && ParseInt(chatId) in ChatIds(chats)
              && (bodyChatId.Missing? || (BindInt(bodyChatId).IntParam? && BindInt(bodyChatId).n !in ChatIds(chats)))
            ==> r == Fail(Error(404, ChatNotFound))
    ensures r.Pass? ==>
      && BindsPath(chatId) && r.value == ParseInt(chatId) && r.value in ChatIds(chats)
      && BindInt(bodyChatId).IntParam? && FindChat(chats, BindInt(bodyChatId).n).Some?
      && IsOwner(FindChat(chats, BindInt(bodyChatId).n).value, caller.email)
    ensures r.Fail? ==> r.response.Error? && r.response.status in {400, 404}
  {
    if chatId == "" then Fail(Error(400, MissingInfo))
    else if !IsNumeric(chatId) then Fail(Error(400, Malformed))
    else if !BindsPath(chatId) then Fail(Error(400, SqlError))
    else
      var id := ParseInt(chatId);
      if FindChat(chats, id).None? then Fail(Error(404, ChatNotFound))
      else
        match BindInt(bodyChatId)
        case CastError => Fail(Error(400, SqlError))
        case NullParam => Fail(Error(404, ChatNotFound))
        case IntParam(bodyId) =>
          match FindChat(chats, bodyId)
          case None => Fail(Error(404, ChatNotFound))
          case Some(named) =>
            if !IsOwner(named, caller.email) then Fail(Error(404, NotOwner))
            else Pass(id)
  }

  /** A request without a body id never gets past the owner check, whoever
      sends it. */
  lemma DeleteWithoutBodyIdFails(chats: seq<Chat>, chatId: string, caller: Caller)
    requires BindsPath(chatId) && ParseInt(chatId) in ChatIds(chats)
    ensures DeleteChatCheck(chats, chatId, Missing, caller) == Fail(Error(404, ChatNotFound))
  {
  }

  /** Past the path guards, the check as written passes exactly when the
      body's chatId names a chat the caller owns, and answers 404 "User is
      not owner" exactly when it names a chat the caller does not own. */
  lemma DeleteChatOutcomes(chats: seq<Chat>, chatId: string, bodyChatId: Json, caller: Caller)
    requires UniqueBy(chats, ChatKey)
    ensures var r := DeleteChatCheck(chats, chatId, bodyChatId, caller);
      && (r.Pass? <==>
            BindsPath(chatId) && ParseInt(chatId) in ChatIds(chats)
            && exists c :: c in chats && BindInt(bodyChatId) == IntParam(c.chatId) && IsOwner(c, caller.email))
      && (r == Fail(Error(404, NotOwner)) <==>
            BindsPath(chatId) && ParseInt(chatId) in ChatIds(chats)
            && exists c :: c in chats && BindInt(bodyChatId) == IntParam(c.chatId) && !IsOwner(c, caller.email))
  {
    var b := BindInt(bodyChatId);
    if b.IntParam? {
      forall c | c in chats && c.chatId == b.n ensures FindChat(chats, b.n) == Some(c) {
        FindChatUnique(chats, c);
      }
    }
  }

  /** The owner check as evidently intended: on the chat named by the path. */
  function DeleteOwnChatCheck(chats: seq<Chat>, chatId: string, caller: Caller): (r: Check<int>)
    ensures chatId == "" ==> r == Fail(Error(400, MissingInfo))
    ensures chatId != "" && !IsNumeric(chatId) ==> r == Fail(Error(400, Malformed))
    ensures IsNumeric(chatId) && !InInt4(ParseInt(chatId)) ==> r == Fail(Error(400, SqlError))
    ensures BindsPath(chatId) && ParseInt(chatId) !in ChatIds(chats) ==> r == Fail(Error(404, ChatNotFound))
    ensures r.Pass? ==>
      && BindsPath(chatId) && r.value == ParseInt(chatId)
      && exists c :: c in chats && c.chatId == r.value && IsOwner(c, caller.email)
    ensures r.Fail? ==> r.response.Error? && r.response.status in {400, 404}
  {
    if chatId == "" then Fail(Error(400, MissingInfo))
    else if !IsNumeric(chatId) then Fail(Error(400, Malformed))
    else if !BindsPath(chatId) then Fail(Error(400, SqlError))
    else
      var id := ParseInt(chatId);
      match FindChat(chats, id)
      case None => Fail(Error(404, ChatNotFound))
      case Some(chat) =>
        if !IsOwner(chat, caller.email) then Fail(Error(404, NotOwner))
        else Pass(id)
  }

  /** The intended check passes exactly when the path names a chat the
      caller owns, and answers 404 "User is not owner" exactly when it names
      a chat the caller does not own. */
  lemma DeleteOwnChatOutcomes(chats: seq<Chat>, chatId: string, caller: Caller)
    requires UniqueBy(chats, ChatKey)
    ensures var r := DeleteOwnChatCheck(chats, chatId, caller);
      && (r.Pass? <==>
            BindsPath(chatId) && exists c :: c in chats && c.chatId == ParseInt(chatId) && IsOwner(c, caller.email))
      && (r == Fail(Error(404, NotOwner)) <==>
            BindsPath(chatId) && exists c :: c in chats && c.chatId == ParseInt(chatId) && !IsOwner(c, caller.email))
  {
    if BindsPath(chatId) {
      var id := ParseInt(chatId);
      forall c | c in chats && c.chatId == id ensures FindChat(chats, id) == Some(c) {
        FindChatUnique(chats, c);
      }
    }
  }

  /** When the body repeats the path id, as the documented API intends, the
      check as written and the intended check agree. */
  lemma DeleteChecksAgreeOnSameId(chats: seq<Chat>, id: int, caller: Caller)
    ensures DeleteChatCheck(chats, ShowInt(id), Num(id), caller) == DeleteOwnChatCheck(chats, ShowInt(id), caller)
    ensures DeleteChatCheck(chats, ShowInt(id), Text(ShowInt(id)), caller) == DeleteOwnChatCheck(chats, ShowInt(id), caller)
  {
    ParseShowInt(id);
    BindShowInt(id);
  }

  /** As written, a caller who owns some chat can pass the owner check for a
      chat they do not own by naming their own chat in the body. */
  lemma ForeignBodyIdPassesOwnerCheck()
    ensures var chats := [Chat(1, "team", "a@x.com"), Chat(2, "mine", "b@x.com")];
      var caller := Caller(2, "b@x.com");
      && DeleteChatCheck(chats, "1", Num(2), caller) == Pass(1)
      && !IsOwner(chats[0], caller.email)
      && DeleteOwnChatCheck(chats, "1", caller) == Fail(Error(404, NotOwner))
  {
    var chats := [Chat(1, "team", "a@x.com"), Chat(2, "mine", "b@x.com")];
    assert IsNumeric("1") && ParseInt("1") == 1 by {
      assert AllDigits("1");
      assert "1"[..0] == [];
    }
    assert FindChat(chats, 1) == Some(chats[0]);
    assert FindChat(chats, 2) == Some(chats[1]);
  }

  // ----------------------------------------------------- GET /:chatId, GET /

  /** GET /:chatId: the emails of the chat's members, after the presence,
      `isNaN` and existence checks. */
  function ListMembers(members: seq<Member>, chats: seq<Chat>, rows: seq<Membership>, chatId: string): (r: Response)
    ensures chatId == "" ==> r == Error(400, MissingInfo)
    ensures chatId != "" && !IsNumeric(chatId) ==> r == Error(400, Malformed)
    ensures IsNumeric(chatId) && !InInt4(ParseInt(chatId)) ==> r == Error(400, SqlError)
    ensures r.MemberList? <==> BindsPath(chatId) && ParseInt(chatId) in ChatIds(chats)
    ensures BindsPath(chatId) && ParseInt(chatId) !in ChatIds(chats) ==> r == Error(404, ChatNotFound)
    ensures r.MemberList? ==>
      && r.rowCount == |r.emails|
      && forall e :: e in r.emails <==> exists m :: Membership(ParseInt(chatId), m) in rows && Member(m, e) in members
  {
    if chatId == "" then Error(400, MissingInfo)
    else if !IsNumeric(chatId) then Error(400, Malformed)
    else if !BindsPath(chatId) then Error(400, SqlError)
    else
      var id := ParseInt(chatId);
      if FindChat(chats, id).None? then Error(404, ChatNotFound)
      else
        var emails := JoinEmails(members, rows, id);
        MemberList(|emails|, emails)
  }

  /** Each member of the chat is listed once. */
  lemma ListMembersDistinct(members: seq<Member>, chats: seq<Chat>, rows: seq<Membership>, chatId: string)
    requires UniqueMembers(members) && NoDuplicates(rows)
    ensures var r := ListMembers(members, chats, rows, chatId);
      r.MemberList? ==> NoDuplicates(r.emails)
  {
    if IsNumeric(chatId) {
      JoinEmailsDistinct(members, rows, ParseInt(chatId));
    }
  }

  /** GET /: the chats the caller belongs to, once the caller is known. */
  function ListChats(members: seq<Member>, chats: seq<Chat>, rows: seq<Membership>, caller: Caller): (r: Response)
    ensures r.ChatList? <==> caller.memberId in MemberIds(members)
    ensures !r.ChatList? ==> r == Error(404, MemberNotFound)
    ensures r.ChatList? ==>
      && r.rowCount == |r.chats|
      && forall c :: c in r.chats <==> c in chats && Membership(c.chatId, caller.memberId) in rows
  {
    if EmailOf(members, caller.memberId).None? then Error(404, MemberNotFound)
    else
      var found := ChatsOf(chats, rows, caller.memberId);
      ChatList(|found|, found)
  }

  /** Each chat is listed once. */
  lemma ListChatsOnce(members: seq<Member>, chats: seq<Chat>, rows: seq<Membership>, caller: Caller)
    requires UniqueBy(chats, ChatKey)
    ensures var r := ListChats(members, chats, rows, caller);
      r.ChatList? ==> UniqueBy(r.chats, ChatKey)
  {
    ChatsOfUnique(chats, rows, caller.memberId);
  }
}
