/** The four tables the chat routes read and write, each a sequence of rows
    in table order, and the queries the routes run over them: key lookups,
    the members-of-a-chat join, the chats-of-a-member selection and the
    filtering that a `DELETE ... WHERE` performs. */
module Tables {
  import opened Requests

  datatype Member = Member(memberId: int, email: string)
  datatype Chat = Chat(chatId: int, name: string, owner: string)
  datatype Membership = Membership(chatId: int, memberId: int)
  /** Only the `ChatId` column of a message matters to these routes. */
  datatype Message = Message(chatId: int, text: string)

  function MemberKey(m: Member): int { m.memberId }
  function EmailKey(m: Member): string { m.email }
  function ChatKey(c: Chat): int { c.chatId }

  /** No two rows agree on `key`: a primary key or a UNIQUE column. */
  predicate UniqueBy<T, K(==)>(rows: seq<T>, key: T -> K) {
    forall i, j :: 0 <= i < j < |rows| ==> key(rows[i]) != key(rows[j])
  }

  predicate NoDuplicates<T(==)>(rows: seq<T>) {
    forall i, j :: 0 <= i < j < |rows| ==> rows[i] != rows[j]
  }

  /** Member ids and emails each identify one member. */
  predicate UniqueMembers(members: seq<Member>) {
    UniqueBy(members, MemberKey) && UniqueBy(members, EmailKey)
  }

  function ChatIds(chats: seq<Chat>): set<int> {
    set c | c in chats :: c.chatId
  }

  function MemberIds(members: seq<Member>): set<int> {
    set m | m in members :: m.memberId
  }

  /** The rows a `DELETE ... WHERE !keep(row)` leaves, in table order. */
  function Filter<T(!new)>(rows: seq<T>, keep: T -> bool): (r: seq<T>)
    ensures forall x :: x in r <==> x in rows && keep(x)
    ensures |r| <= |rows|
  {
    if rows == [] then []
    else (if keep(rows[0]) then [rows[0]] else []) + Filter(rows[1..], keep)
  }

  lemma {:induction false} FilterKeepsNoDuplicates<T(!new)>(rows: seq<T>, keep: T -> bool)
    requires NoDuplicates(rows)
    ensures NoDuplicates(Filter(rows, keep))
  {
    if rows != [] {
      FilterKeepsNoDuplicates(rows[1..], keep);
      var tail := Filter(rows[1..], keep);
      assert rows[0] !in rows[1..] by {
        forall j | 0 <= j < |rows[1..]| ensures rows[1..][j] != rows[0] {
          assert rows[1..][j] == rows[j + 1];
        }
      }
      assert rows[0] !in tail;
    }
  }

  lemma {:induction false} FilterKeepsUniqueBy<T(!new), K>(rows: seq<T>, keep: T -> bool, key: T -> K)
    requires UniqueBy(rows, key)
    ensures UniqueBy(Filter(rows, keep), key)
  {
    if rows != [] {
      FilterKeepsUniqueBy(rows[1..], keep, key);
      var tail := Filter(rows[1..], keep);
      forall y | y in tail ensures key(y) != key(rows[0]) {
        var j :| 0 <= j < |rows[1..]| && rows[1..][j] == y;
        assert rows[j + 1] == y;
      }
      var r := Filter(rows, keep);
      if keep(rows[0]) {
        forall i, j | 0 <= i < j < |r| ensures key(r[i]) != key(r[j]) {
          if i == 0 {
            assert r[j] == tail[j - 1];
            assert r[j] in tail;
          } else {
            assert r[i] == tail[i - 1] && r[j] == tail[j - 1];
          }
        }
      }
    }
  }

  /** `SELECT Email FROM Members WHERE MemberId=$1`, first row. */
  function EmailOf(members: seq<Member>, id: int): (r: Option<string>)
    ensures r.Some? ==> Member(id, r.value) in members
    ensures r.None? <==> id !in MemberIds(members)
  {
    if members == [] then None
    else if members[0].memberId == id then Some(members[0].email)
    else EmailOf(members[1..], id)
  }

  /** `SELECT MemberId FROM Members WHERE Email=$1`, first row. */
  function MemberIdOf(members: seq<Member>, email: string): (r: Option<int>)
    ensures r.Some? ==> Member(r.value, email) in members
    ensures r.None? <==> forall m :: m in members ==> m.email != email
  {
    if members == [] then None
    else if members[0].email == email then Some(members[0].memberId)
    else MemberIdOf(members[1..], email)
  }

  /** `SELECT * FROM Chats WHERE ChatId=$1`, first row. */
  function FindChat(chats: seq<Chat>, id: int): (r: Option<Chat>)
    ensures r.Some? ==> r.value in chats && r.value.chatId == id
    ensures r.None? <==> id !in ChatIds(chats)
  {
    if chats == [] then None
    else if chats[0].chatId == id then Some(chats[0])
    else FindChat(chats[1..], id)
  }

  /** With unique member ids the lookup by id returns the member's email. */
  lemma EmailOfUnique(members: seq<Member>, m: Member)
    requires UniqueBy(members, MemberKey) && m in members
    ensures EmailOf(members, m.memberId) == Some(m.email)
  {
    var e := EmailOf(members, m.memberId).value;
    var i :| 0 <= i < |members| && members[i] == m;
    var j :| 0 <= j < |members| && members[j] == Member(m.memberId, e);
    assert MemberKey(members[i]) == MemberKey(members[j]);
  }

  /** With unique emails the lookup by email returns the member's id. */
  lemma MemberIdOfUnique(members: seq<Member>, m: Member)
    requires UniqueBy(members, EmailKey) && m in members
    ensures MemberIdOf(members, m.email) == Some(m.memberId)
  {
    var id := MemberIdOf(members, m.email).value;
    var i :| 0 <= i < |members| && members[i] == m;
    var k :| 0 <= k < |members| && members[k] == Member(id, m.email);
    assert EmailKey(members[i]) == EmailKey(members[k]);
  }

  /** With unique chat ids the lookup by id returns the chat's row. */
  lemma FindChatUnique(chats: seq<Chat>, c: Chat)
    requires UniqueBy(chats, ChatKey) && c in chats
    ensures FindChat(chats, c.chatId) == Some(c)
  {
    var f := FindChat(chats, c.chatId).value;
    var i :| 0 <= i < |chats| && chats[i] == c;
    var j :| 0 <= j < |chats| && chats[j] == f;
    assert ChatKey(chats[i]) == ChatKey(chats[j]);
  }

  /** Every email a member row with id `id` carries (the join's inner side). */
  function EmailsOf(members: seq<Member>, id: int): (r: seq<string>)
    ensures forall e :: e in r <==> Member(id, e) in members
  {
    if members == [] then []
    else (if members[0].memberId == id then [members[0].email] else []) + EmailsOf(members[1..], id)
  }

  /** `SELECT Members.Email FROM ChatMembers INNER JOIN Members ON
      ChatMembers.MemberId=Members.MemberId WHERE ChatId=$1`. */
  function JoinEmails(members: seq<Member>, rows: seq<Membership>, chatId: int): (r: seq<string>)
    ensures forall e :: e in r <==> exists m :: Membership(chatId, m) in rows && Member(m, e) in members
  {
    if rows == [] then []
    else
      var tail := JoinEmails(members, rows[1..], chatId);
      assert forall m :: Membership(chatId, m) in rows <==> Membership(chatId, m) == rows[0] || Membership(chatId, m) in rows[1..];
      (if rows[0].chatId == chatId then EmailsOf(members, rows[0].memberId) else []) + tail
  }

  /** `SELECT * FROM Chats WHERE chatid IN (SELECT DISTINCT chatid FROM
      ChatMembers WHERE memberid=$1)`, in table order. */
  function ChatsOf(chats: seq<Chat>, rows: seq<Membership>, memberId: int): (r: seq<Chat>)
    ensures forall c :: c in r <==> c in chats && Membership(c.chatId, memberId) in rows
  {
    Filter(chats, (c: Chat) => Membership(c.chatId, memberId) in rows)
  }

  /** Each chat row comes back at most once: the listing keeps the key. */
  lemma ChatsOfUnique(chats: seq<Chat>, rows: seq<Membership>, memberId: int)
    requires UniqueBy(chats, ChatKey)
    ensures UniqueBy(ChatsOf(chats, rows, memberId), ChatKey)
  {
    FilterKeepsUniqueBy(chats, (c: Chat) => Membership(c.chatId, memberId) in rows, ChatKey);
  }

  lemma {:induction false} EmailsOfAbsent(members: seq<Member>, id: int)
    requires forall m :: m in members ==> m.memberId != id
    ensures EmailsOf(members, id) == []
  {
    if members != [] {
      EmailsOfAbsent(members[1..], id);
    }
  }

  /** With unique member ids, a member id carries at most one email. */
  lemma {:induction false} EmailsOfAtMostOne(members: seq<Member>, id: int)
    requires UniqueBy(members, MemberKey)
    ensures |EmailsOf(members, id)| <= 1
  {
    if members != [] {
      EmailsOfAtMostOne(members[1..], id);
      var tail := EmailsOf(members[1..], id);
      if members[0].memberId == id {
        forall m | m in members[1..] ensures m.memberId != id {
          var j :| 0 <= j < |members[1..]| && members[1..][j] == m;
          assert MemberKey(members[0]) != MemberKey(members[j + 1]);
        }
        EmailsOfAbsent(members[1..], id);
      }
    }
  }

  /** With unique members and no duplicate membership rows, the join lists
      every member of the chat once. */
  lemma {:induction false} JoinEmailsDistinct(members: seq<Member>, rows: seq<Membership>, chatId: int)
    requires UniqueMembers(members) && NoDuplicates(rows)
    ensures NoDuplicates(JoinEmails(members, rows, chatId))
  {
    if rows != [] {
      assert NoDuplicates(rows[1..]) by {
        forall i, j | 0 <= i < j < |rows[1..]| ensures rows[1..][i] != rows[1..][j] {
          assert rows[1..][i] == rows[i + 1] && rows[1..][j] == rows[j + 1];
        }
      }
      JoinEmailsDistinct(members, rows[1..], chatId);
      var tail := JoinEmails(members, rows[1..], chatId);
      if rows[0].chatId == chatId {
        var head := EmailsOf(members, rows[0].memberId);
        EmailsOfAtMostOne(members, rows[0].memberId);
        forall e | e in head ensures e !in tail {
          var a :| 0 <= a < |members| && members[a] == Member(rows[0].memberId, e);
          forall m | Membership(chatId, m) in rows[1..] ensures Member(m, e) !in members {
            var j :| 0 <= j < |rows[1..]| && rows[1..][j] == Membership(chatId, m);
            assert rows[0] != rows[j + 1];
            forall b | 0 <= b < |members| ensures members[b] != Member(m, e) {
              if a < b {
                assert EmailKey(members[a]) != EmailKey(members[b]);
              } else if b < a {
                assert EmailKey(members[b]) != EmailKey(members[a]);
              }
            }
          }
        }
        var r := head + tail;
        forall i, j | 0 <= i < j < |r| ensures r[i] != r[j] {
          if i < |head| {
            assert r[i] == head[i] && head[i] in head;
            assert r[j] == tail[j - |head|];
          } else {
            assert r[i] == tail[i - |head|] && r[j] == tail[j - |head|];
          }
        }
      }
    }
  }

  /** An id larger than every chat id in the table (where `INSERT ...
      RETURNING ChatId` can draw a fresh key from). */
  function IdBound(chats: seq<Chat>): (b: int)
    ensures b > 0
    ensures forall c :: c in chats ==> c.chatId < b
  {
    if chats == [] then 1
    else
      var rest := IdBound(chats[1..]);
      if chats[0].chatId < rest then rest else chats[0].chatId + 1
  }
}
