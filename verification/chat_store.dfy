/** The chat persistence of `src/services/ChatService.js` and its older copy
    `services/ChatService.js`. The two agree line for line on the functions
    they share; `createWelcomeMessageIfNeeded` is only in the first
    (src/services/ChatService.js:100-117). One `localStorage` entry holds an
    object from conversation keys to message lists. The object is a map here, passed in and returned
    explicitly; the clock values a message is stamped with are parameters. */
module ChatStore {
  import opened Wrappers
  import opened Strings
  import Seqs

  /** A chat message. `id` and `timestamp` are set when it is sent. */
  datatype Message = Message(id: int, senderId: int, text: string, timestamp: string, read: bool)

  /** The stored object: conversation key to its messages, oldest first. */
  type Chats = map<string, seq<Message>>

  /** The sender id of system messages. */
  const SystemSender := 0

  const WelcomeText := "Herzlich Willkommen zum Chat! Hier kannst du direkt mit deinem Match kommunizieren."

  // ---------------------------------------------------------------------------
  // Conversation keys
  // ---------------------------------------------------------------------------

  /** `getConversationId`: both ids, the numerically smaller first, joined by
      an underscore. */
  function ConversationId(a: int, b: int): (r: string)
    ensures FirstTwoPieces(r, '_') == (IntToString(if a <= b then a else b), Some(IntToString(if a <= b then b else a)))
  {
    var lo, hi := if a <= b then a else b, if a <= b then b else a;
    SplitJoined(IntToString(lo), IntToString(hi), '_');
    IntToString(lo) + "_" + IntToString(hi)
  }

  /** The key does not depend on the order of the two ids. */
  lemma ConversationIdSymmetric(a: int, b: int)
    ensures ConversationId(a, b) == ConversationId(b, a)
  {
  }

  /** Two keys are equal exactly when they name the same pair of ids. */
  lemma ConversationIdInjective(a: int, b: int, c: int, d: int)
    ensures ConversationId(a, b) == ConversationId(c, d) <==> (a == c && b == d) || (a == d && b == c)
  {
    if ConversationId(a, b) == ConversationId(c, d) {
      var p, q := FirstTwoPieces(ConversationId(a, b), '_'), FirstTwoPieces(ConversationId(c, d), '_');
      assert p == q;
      IntToStringInjective(if a <= b then a else b, if c <= d then c else d);
      IntToStringInjective(if a <= b then b else a, if c <= d then d else c);
    }
  }

  // ---------------------------------------------------------------------------
  // Reading and writing messages
  // ---------------------------------------------------------------------------

  /** `getMessages`: the conversation's messages, or none for an unknown key. */
  function GetMessages(chats: Chats, conversationId: string): (r: seq<Message>)
    ensures conversationId in chats ==> r == chats[conversationId]
    ensures conversationId !in chats ==> r == []
  {
    if conversationId in chats then chats[conversationId] else []
  }

  /** `sendMessage`: the draft, stamped with the clock's id and time, goes at
      the end of its conversation (created if missing); returns the stamped
      message and the new store. */
  function SendMessage(chats: Chats, conversationId: string, draft: Message, now: int, stamp: string): (r: (Message, Chats))
    ensures r.0 == draft.(id := now, timestamp := stamp)
    ensures r.1.Keys == chats.Keys + {conversationId}
    ensures GetMessages(r.1, conversationId) == GetMessages(chats, conversationId) + [r.0]
    ensures forall c :: c in chats && c != conversationId ==> r.1[c] == chats[c]
  {
    var m := draft.(id := now, timestamp := stamp);
    (m, chats[conversationId := GetMessages(chats, conversationId) + [m]])
  }

  /** Whether a message counts as unread for `userId`: someone else sent it
      and it is not read (`senderId != userId && !read`). */
  predicate UnreadFor(m: Message, userId: int)
  {
    m.senderId != userId && !m.read
  }

  /** The message as `markAsRead` leaves it. */
  function MarkOne(m: Message, userId: int): (r: Message)
    ensures !UnreadFor(r, userId)
    ensures r.(read := m.read) == m
    ensures m.senderId == userId ==> r == m
  {
    if UnreadFor(m, userId) then m.(read := true) else m
  }

  /** Marks every message of a list that is unread for the user. */
  function MarkAll(ms: seq<Message>, userId: int): (r: seq<Message>)
    ensures |r| == |ms|
    ensures forall i :: 0 <= i < |ms| ==> r[i] == MarkOne(ms[i], userId)
  {
    seq(|ms|, i requires 0 <= i < |ms| => MarkOne(ms[i], userId))
  }

  /** `markAsRead`: in a known conversation, marks every message someone else
      sent as read; the user's own messages, the other fields and the other
      conversations are untouched. An unknown key changes nothing. */
  function MarkAsRead(chats: Chats, conversationId: string, userId: int): (r: Chats)
    ensures r.Keys == chats.Keys
    ensures forall c :: c in chats && c != conversationId ==> r[c] == chats[c]
    ensures conversationId in chats ==>
      var before, after := chats[conversationId], r[conversationId];
      && |after| == |before|
      && (forall i :: 0 <= i < |before| ==> after[i].(read := before[i].read) == before[i])
      && (forall i :: 0 <= i < |before| && before[i].senderId != userId ==> after[i].read)
      && (forall i :: 0 <= i < |before| && before[i].senderId == userId ==> after[i] == before[i])
  {
    if conversationId in chats then chats[conversationId := MarkAll(chats[conversationId], userId)] else chats
  }

  /** Marking as read twice is the same as marking once. */
  lemma MarkAsReadIdempotent(chats: Chats, conversationId: string, userId: int)
    ensures MarkAsRead(MarkAsRead(chats, conversationId, userId), conversationId, userId)
            == MarkAsRead(chats, conversationId, userId)
  {
    var once := MarkAsRead(chats, conversationId, userId);
    var twice := MarkAsRead(once, conversationId, userId);
    if conversationId in chats {
      assert twice[conversationId] == once[conversationId];
    }
    assert twice == once;
  }

  /** `createWelcomeMessageIfNeeded`: a missing or empty conversation becomes
      the single unread system welcome; any other is left alone. */
  function CreateWelcomeMessageIfNeeded(chats: Chats, conversationId: string, now: int, stamp: string): (r: Chats)
    ensures GetMessages(chats, conversationId) != [] ==> r == chats
    ensures GetMessages(chats, conversationId) == [] ==>
      && r.Keys == chats.Keys + {conversationId}
      && r[conversationId] == [Message(now, SystemSender, WelcomeText, stamp, false)]
      && forall c :: c in chats && c != conversationId ==> r[c] == chats[c]
  {
    if GetMessages(chats, conversationId) == [] then
      chats[conversationId := [Message(now, SystemSender, WelcomeText, stamp, false)]]
    else chats
  }

  /** The welcome is only written once: a second call finds it and does
      nothing. */
  lemma WelcomeOnce(chats: Chats, conversationId: string, now: int, stamp: string, later: int, stamp2: string)
    ensures var once := CreateWelcomeMessageIfNeeded(chats, conversationId, now, stamp);
      CreateWelcomeMessageIfNeeded(once, conversationId, later, stamp2) == once
  {
  }

  // ---------------------------------------------------------------------------
  // Conversation list
  // ---------------------------------------------------------------------------

  /** An entry of `getUserConversations`; `otherUserId` is `None` where
      `parseInt` gives NaN. */
  datatype Conversation = Conversation(id: string, otherUserId: Option<nat>, lastMessage: Message, unread: nat)

  /** JavaScript's `piece == userId` between a key piece (a string) and a
      number: the piece is converted with `Number`. */
  predicate LooselyEquals(piece: string, userId: int)
  {
    var n := NumberOf(piece);
    n.Some? && n.value == userId
  }

  /** Whether a key names the user as its first or second piece. */
  predicate Involves(conversationId: string, userId: int)
  {
    var (user1, user2) := FirstTwoPieces(conversationId, '_');
    LooselyEquals(user1, userId) || (user2.Some? && LooselyEquals(user2.value, userId))
  }

  /** `parseInt` of the piece that is not the user (the second piece when the
      first one is the user, which may be missing). */
  function OtherUserId(conversationId: string, userId: int): Option<nat>
  {
    var (user1, user2) := FirstTwoPieces(conversationId, '_');
    var other := if LooselyEquals(user1, userId) then user2 else Some(user1);
    if other.None? then None else ParseIntOf(other.value)
  }

  /** The number of messages in the list that are unread for the user. */
  function Unread(ms: seq<Message>, userId: int): (n: nat)
    ensures n <= |ms|
    ensures n == 0 <==> forall i :: 0 <= i < |ms| ==> !UnreadFor(ms[i], userId)
  {
    Seqs.CountNone(ms, m => UnreadFor(m, userId));
    Seqs.Count(ms, m => UnreadFor(m, userId))
  }

  /** The list entry for one non-empty conversation. */
  function Summary(conversationId: string, ms: seq<Message>, userId: int): (r: Conversation)
    requires ms != []
    ensures r.id == conversationId && r.lastMessage == ms[|ms| - 1]
  {
    Conversation(conversationId, OtherUserId(conversationId, userId), ms[|ms| - 1], Unread(ms, userId))
  }

  /** `getUserConversations`: one entry per non-empty conversation whose key
      involves the user. The order of `Object.entries` is not modelled, so the
      result is a set. */
  function UserConversations(chats: Chats, userId: int): (r: set<Conversation>)
    ensures forall e :: e in r <==> e.id in chats && chats[e.id] != [] && Involves(e.id, userId)
                                    && e == Summary(e.id, chats[e.id], userId)
  {
    set c | c in chats && chats[c] != [] && Involves(c, userId) :: Summary(c, chats[c], userId)
  }

  /** Both partners of a conversation are involved in its key, and each one's
      other id is the partner. */
  lemma KeyNamesBothPartners(a: nat, b: nat)
    ensures Involves(ConversationId(a, b), a) && Involves(ConversationId(a, b), b)
    ensures OtherUserId(ConversationId(a, b), a) == Some(b)
    ensures OtherUserId(ConversationId(a, b), b) == Some(a)
  {
    ReadWrittenNumber(a);
    ReadWrittenNumber(b);
  }

  /** After a message is sent in the conversation of `a` and `b`, `a`'s list
      holds that conversation with `b` as the other user and the message as
      the last one. */
  lemma SentMessageIsListed(chats: Chats, a: nat, b: nat, draft: Message, now: int, stamp: string)
    ensures var key := ConversationId(a, b);
      var (m, after) := SendMessage(chats, key, draft, now, stamp);
      exists e :: e in UserConversations(after, a) && e.id == key && e.otherUserId == Some(b) && e.lastMessage == m
  {
    var key := ConversationId(a, b);
    var (m, after) := SendMessage(chats, key, draft, now, stamp);
    KeyNamesBothPartners(a, b);
    var e := Summary(key, after[key], a);
    assert e in UserConversations(after, a);
  }

  /** After `markAsRead`, the conversation shows no unread messages for that
      user. */
  lemma MarkAsReadClearsUnread(chats: Chats, conversationId: string, userId: int)
    requires conversationId in chats
    ensures Unread(MarkAsRead(chats, conversationId, userId)[conversationId], userId) == 0
  {
  }
}
