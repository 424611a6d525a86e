# Chat room membership routes, modelled in Dafny

This project models the chat routes of the group-chat server (`routes/chats.js`):
creating a chat, adding a member (owner only), listing a chat's members,
listing the caller's chats, removing a member (the owner, or a member
removing themself) and deleting a chat room. Each route is a fixed chain of
guard steps over four tables — `Members`, `Chats`, `ChatMembers` and
`Messages`. The first guard that fails sends its own status and message, and
later steps never run.

Layout:

- `requests.dfy` (module `Requests`): request fields. A JSON body field is
  absent, a number or a string. The module gives JavaScript truthiness
  (`!request.body.x`), the `isNaN` test on a path parameter, and how node-postgres
  binds a value to the integer `ChatId` column.
- `tables.dfy` (module `Tables`): the tables as sequences of rows in table
  order, and the queries the routes run on them. `Filter` is what a
  `DELETE ... WHERE` leaves. There are lookups by key, the members join and
  the chats-of-a-member selection. Lemmas show that deleting keeps keys and
  rows unique, and that lookups are exact when keys are unique.
- `guards.dfy` (module `Guards`): each route's read-only guard chain is a pure
  function. It returns either the row the writes will use or the response of
  the first failing guard. The two GET listings are here too. Lemmas cover guard
  order, exact success conditions and what a caller can or cannot learn.
- `chats.dfy` (module `Chats`): class `ChatStore`. Its fields are the four
  tables (`members` is a `const`, because no chat route writes it). Its
  methods run a guard chain, then issue the route's INSERT or DELETE
  statements one at a time. `Valid()` is the invariant every route keeps:
  unique keys, no duplicate membership row, and every membership names an
  existing chat and member.
- `scenarios.dfy` (module `Scenarios`): a session of route calls with the
  responses each call is then known to return.

Inputs the code reads from outside are parameters:

- The caller identity (`request.decoded`) is a `Caller(memberId, email)`.
- A write statement that fails is a `Fault` value: `FailsAt(k)` makes the
  route's k-th write report "SQL Error".
- For PUT, step 2 is the push-token lookup and notification after the insert.

Because faults are explicit, the model shows that create and delete are not
atomic. A failing second statement leaves the first one applied.

Behaviour of the code that the model keeps, though the routes' own API
comments do not mention it:

- The add-member chain has no verified-contact check and no `isNaN` test on
  the body's `chatId`.
- Deleting a chat removes memberships, then messages, then the chat row. The
  statements are separate, with no transaction.
- Nothing keeps the owner a member of their own chat: the owner may remove
  themself (`Guards.OwnerMayLeave`).
- An unknown caller on POST gets 400 "SQL Error". Reading `rows[0].email` of
  an empty result throws inside `.then`, and the `.catch` handles it.
- Authorisation failures are 404 "User is not owner of chat room".
- A failing push step after a successful insert answers 400 "SQL Error on
  select from push token", and the inserted membership stays. As the files
  stand the push step always fails (see "Left out").

## Model

| member | source | states |
|---|---|---|
| `Requests.BindInt` | routes/chats.js:132-135 | a `chatId` binds to an integer exactly when it is a number or a decimal string within the 32-bit range of the `ChatId` column. An absent field binds NULL. Anything else makes the query fail |
| `Requests.BindShowInt` | routes/chats.js:296-297 | a chat id written as a string binds back to that id exactly when it is within the column's range. Outside the range the query fails |
| `Requests.ParseShowInt` | routes/chats.js:281-293 | a chat id written into a request path passes the presence and `isNaN` guards and names the same chat again |
| `Tables.Filter` | routes/chats.js:531-535 | a DELETE keeps exactly the rows not matched, never adds one, and never grows the table |
| `Tables.FilterKeepsNoDuplicates` | routes/chats.js:631-633 | deleting rows never creates a duplicate membership row |
| `Tables.FilterKeepsUniqueBy` | routes/chats.js:657-659 | deleting rows keeps a unique key unique, for example the chat id |
| `Tables.EmailOf` | routes/chats.js:50-55 | the email lookup by member id finds a stored row for that id, and finds nothing exactly when no row has that id |
| `Tables.MemberIdOf` | routes/chats.js:180-191 | the member-id lookup by email finds a stored row with that email, and finds nothing exactly when no row has that email |
| `Tables.FindChat` | routes/chats.js:296-306 | the chat lookup finds a stored row with that id, and finds nothing exactly when no row has it |
| `Tables.EmailOfUnique` | routes/chats.js:50-55 | with unique member ids, the lookup returns the member's own email |
| `Tables.MemberIdOfUnique` | routes/chats.js:461-472 | with unique emails, the lookup returns that member's id |
| `Tables.FindChatUnique` | routes/chats.js:441-451 | with unique chat ids, the lookup returns that chat's row |
| `Tables.JoinEmails` | routes/chats.js:316-326 | the join yields an email exactly when some member with that email has a membership row in the chat |
| `Tables.JoinEmailsDistinct` | routes/chats.js:316-326 | with unique members and no duplicate membership rows, the join lists no email twice |
| `Tables.ChatsOf` | routes/chats.js:379-385 | the selection yields exactly the chat rows that have a membership pair for the member |
| `Tables.ChatsOfUnique` | routes/chats.js:379-385 | the selection returns each chat at most once |
| `Tables.IdBound` | routes/chats.js:64-70 | some positive id lies above every chat id in the table, so the chat insert can always draw an unused key at or below it |
| `Guards.CreateCheck` | routes/chats.js:40-61 | POST passes its guards exactly when a name is present and the caller is a stored member. It then yields the caller's stored email. A missing name gives 400 "Missing required information" and an unknown caller gives 400 "SQL Error" |
| `Guards.AddMemberCheck` | routes/chats.js:122-218 | when PUT passes, the pair it will insert has an existing chat the caller owns and a stored target member, and the pair is not yet in `ChatMembers`. Every failure is a 400 or 404 error |
| `Guards.AddMemberFailures` | routes/chats.js:122-218 | each PUT error message occurs exactly when its guard is the first to fail. The order is: missing field 400, a `chatId` that does not bind 400 "SQL Error", unknown chat 404, not owner 404, unknown email 404, already joined 400 |
| `Guards.AddMemberSucceedsIff` | routes/chats.js:122-218 | PUT succeeds with pair (chat, member) exactly when the fields are present, the chat exists and the caller owns it, the target email is that member's, and the pair is absent |
| `Guards.AddMemberHidesTarget` | routes/chats.js:151-198 | a caller who does not own the chat gets 404 "User is not owner of chat room" whatever email they name and whatever Members and ChatMembers hold |
| `Guards.RemoveMemberCheck` | routes/chats.js:426-528 | the guards for removing a member, in order: missing parameter 400, non-numeric id 400, id outside the column's range 400 "SQL Error", unknown chat 404, unknown email 404. When they pass, the target is a member of the chat and the caller owns the chat or is the target |
| `Guards.RemoveMemberSucceedsIff` | routes/chats.js:426-528 | removal succeeds exactly when the parameters are present, numeric and within the column's range, the chat and the target exist, the target is in the chat, and the caller owns the chat or names themself |
| `Guards.RemoveMemberFailures` | routes/chats.js:426-528 | each error message of DELETE /:chatId/:email occurs exactly when its guard is the first to fail. The order is: missing 400, non-numeric 400, out of range 400 "SQL Error", unknown chat 404, unknown email 404, target not in the chat 400 "user not in chat", then the caller neither owner nor target 404 "User is not owner of chat room" |
| `Guards.RemoveRevealsMembership` | routes/chats.js:480-528 | the not-in-chat check runs before the owner check. A caller who is neither the owner nor the target gets 400 "user not in chat" or 404 "not owner", depending on whether the target is in the chat |
| `Guards.OwnerMayLeave` | routes/chats.js:501-528 | the owner may remove their own membership from their chat |
| `Guards.DeleteChatCheck` | routes/chats.js:569-628 | delete-chat guards: missing 400, non-numeric 400, out of range 400 "SQL Error", unknown path chat 404. Then the owner check runs on the BODY's chatId: a body id that does not bind gives 400 "SQL Error", and an absent body id or one naming no chat gives 404. When the guards pass, the caller owns the chat named by the body, not necessarily the path's |
| `Guards.DeleteChatOutcomes` | routes/chats.js:569-628 | past the path guards, the check as written passes exactly when the body's chatId names a chat the caller owns. It answers 404 "User is not owner of chat room" exactly when the body names a chat the caller does not own |
| `Guards.DeleteWithoutBodyIdFails` | routes/chats.js:602-613 | without a body chatId, deleting an existing chat always answers 404 "Chat ID not found" |
| `Guards.ForeignBodyIdPassesOwnerCheck` | routes/chats.js:602-621 | the owner of chat 2 passes the owner check for chat 1, which they do not own, by sending body chatId 2. The intended check refuses them |
| `Guards.DeleteOwnChatCheck` | routes/chats.js:602-621 | the intended owner check, on the path's chat: when it passes, the caller owns the chat being deleted |
| `Guards.DeleteOwnChatOutcomes` | routes/chats.js:569-621 | the intended check passes exactly when the path names a chat the caller owns. It answers 404 "User is not owner of chat room" exactly when the path names a chat the caller does not own |
| `Guards.DeleteChecksAgreeOnSameId` | routes/chats.js:602-621 | when the body repeats the path id, as a number or as a string, the check as written and the intended check give the same result |
| `Guards.ListMembers` | routes/chats.js:281-333 | GET /:chatId: missing 400, non-numeric 400, out of range 400 "SQL Error", unknown chat 404. Otherwise `rowCount` is the number of rows, and the rows are exactly the emails of members with a membership pair in that chat |
| `Guards.ListMembersDistinct` | routes/chats.js:314-326 | with unique members and no duplicate membership rows, every member of the chat is listed once |
| `Guards.ListChats` | routes/chats.js:356-399 | GET /: 404 "Member Not Found" exactly when the caller's member id is unknown. Otherwise `rowCount` is the number of rows, and the rows are exactly the chats with a membership pair for the caller |
| `Guards.ListChatsOnce` | routes/chats.js:377-392 | GET / lists each chat once |
| `Chats.ChatStore.CreateChat` | routes/chats.js:40-96 | a guard failure changes nothing. While a key is left in the column's range, success appends one chat row with a fresh positive id within that range, the given name and the caller's stored email, appends the pair (new id, caller), and returns the id. If the second insert fails, the chat row stays without its membership. Invariant kept |
| `Chats.ChatStore.AddMember` | routes/chats.js:122-258 | a guard failure changes nothing. On success the route appends exactly the resolved pair. A failing push step still leaves the pair inserted and answers 400. Chats and Messages are unchanged and no membership row is duplicated |
| `Chats.ChatStore.RemoveMember` | routes/chats.js:426-548 | a guard failure changes nothing. On success the route deletes exactly the one resolved pair and keeps every other row |
| `Chats.ChatStore.Cascade` | routes/chats.js:629-670 | deletes the chat's memberships, then its messages, then its row. A failure at step k leaves steps before k applied and later steps not run. Rows of other chats are kept |
| `Chats.ChatStore.DeleteChat` | routes/chats.js:569-670 | the route as written. A guard failure changes nothing. When the guards pass (the owner check being on the body's id), the path's chat is cascaded away |
| `Chats.ChatStore.DeleteOwnedChat` | routes/chats.js:569-670 | the route with the owner check on the path's chat. Anything it deletes belonged to a chat the caller owned |
| `Chats.ChatStore.GetMembers` | routes/chats.js:281-333 | GET /:chatId on the store: each member's email appears once, and exactly the chat's members appear |
| `Chats.ChatStore.GetChats` | routes/chats.js:356-399 | GET / on the store: each chat appears once, and exactly the chats the caller belongs to appear |
| `Scenarios.TripSession` | routes/chats.js:40-670 | a@x.com creates "Trip", adds b@x.com, and the listing is both emails. b@x.com is refused removing a@x.com. a@x.com removes b@x.com and deletes the chat. The listing then answers 404 |

## Left out

- Express routing, body parsing and the HTTP plumbing are not modelled. Only the status, message and payload are.
- JWT decoding is left out. The caller identity is an input.
- The SQL text and the connection pool are left out. In-memory tables replace them.
- Random database failures of the read queries (a lost connection, say) are not modelled. The deterministic "SQL Error" answers of the reads are modelled: an unknown caller on POST, and a chat id that does not bind to the `ChatId` column on PUT, GET /:chatId and both DELETE routes. Random failures are modelled only for the write statements and the push step, through `Fault`.
- Concurrency between requests is out of scope. Each route runs alone, so the second chat lookup in PUT and in DELETE /:chatId/:email cannot fail. It is folded into the first.
- The push step (`pushy.addIndividualToChatRoom` and the `Push_Token` lookup) is a foreign call. It is modelled only as a step that may fail.
- `Chats.ChatStore.AddMember`: `Healthy` answers `Done`, which describes the route with a working `pushy`. As the files stand, `utilities/utils.js:51-53` does not export `pushy`, so `pushy` is undefined at routes/chats.js:12. The call at routes/chats.js:248 then throws every time. So every PUT that inserts answers 400 "SQL Error on select from push token" and keeps the insert, which is the model's `FailsAt(2)` outcome. The same answer comes when the target has no push token.
- `Requests.IsNumeric` only approximates `isNaN`. It accepts decimal integers with an optional minus sign. JavaScript also accepts surrounding blanks, a plus sign, fractions, exponents, hex and "Infinity". Postgres would reject the non-integers among these when it binds them. Path ids are then bound as text, as `Requests.BindInt` describes.
- `Requests.BindInt`: Postgres's integer input also accepts surrounding blanks and a leading `+`, so a body `chatId` such as `" 5"` or `"+5"` finds chat 5 in the source. The model makes such a query fail with 400 "SQL Error". The `Json` type also has no fractional or boolean values, which Postgres would reject with "SQL Error" as well.
- `Chats.ChatStore.CreateChat`: the serial key is any unused id within the column's range. The chat insert fails only once some chat holds the largest key. A sequence that ran out while the largest keys were deleted again is not modelled.
- String body fields (`name`, `email`) are `Option<string>`. A number or object sent in their place is not modelled.
- The order of rows in the listings is table order. SQL leaves it unspecified, and the contracts state only membership and distinctness.
- The message payloads of the Messages table are not modelled. Rows are kept only for the cascade.
- Contact routes, favourite locations, weather lookup, password hashing and email delivery are not part of this model. They are other routes or library calls.

## Findings

| source | as written | input that shows it | evidently intended | confidence | as-written member | corrected member |
|---|---|---|---|---|---|---|
| routes/chats.js:602-621 | DELETE /:chatId checks ownership of `request.body.chatId` but deletes the chat named by the path | chats 1 (owner a@x.com) and 2 (owner b@x.com); b@x.com sends DELETE /1 with body `{chatId: 2}`. Chat 1 passes the owner check and is deleted. A request with no body id always gets 404 | the owner check reads `request.params.chatId` | high (not executed) | `Guards.ForeignBodyIdPassesOwnerCheck` | `Chats.ChatStore.DeleteOwnedChat` |
