/** The message renderer (`parseMessage`): one message plus the entity cache
    gives at most one line of terminal output. The RFC 822 timestamp text is
    a parameter `fmtDate`, standing for `formatDate`. */
module Render {
  import opened Base
  import opened Decimal
  import opened Entities
  import opened Cache

  /** The `To_id` of a message. */
  datatype Peer =
    | PeerUser(userId: Int32)
    | PeerChat(chatId: Int32)
    | PeerChannel(channelId: Int32)
    | OtherPeer(typeName: string)

  /** The message objects a difference carries. */
  datatype Message =
    | MessageEmpty(emptyId: Int32)
    | Message(id: Int32, fromId: Int32, toId: Peer, date: Int32, text: string)
    | OtherMessage(typeName: string)

  /** Map lookups that fall back to Go's zero value on a miss. */
  function UserOrZero(c: EntityCache, id: Int32): (u: User)
    ensures id in c.users ==> u == c.users[id]
    ensures id !in c.users ==> u == ZeroUser
  {
    if id in c.users then c.users[id] else ZeroUser
  }

  function ChatOrZero(c: EntityCache, id: Int32): (t: Chat)
    ensures id in c.chats ==> t == c.chats[id]
    ensures id !in c.chats ==> t == ZeroChat
  {
    if id in c.chats then c.chats[id] else ZeroChat
  }

  function ChannelOrZero(c: EntityCache, id: Int32): (t: Channel)
    ensures id in c.channels ==> t == c.channels[id]
    ensures id !in c.channels ==> t == ZeroChannel
  {
    if id in c.channels then c.channels[id] else ZeroChannel
  }

  /** The sender column. `parseMessage` first stores an "unknow user"
      placeholder for a sender missing from the cache, then unconditionally
      overwrites it with the nickname of the lookup result, so the
      placeholder never shows: a missing sender is shown as the zero user. */
  function SenderName(c: EntityCache, from: Int32): (r: string)
    ensures from in c.users ==> r == Nickname(c.users[from])
    ensures from !in c.users ==> r == "0  "
    ensures from !in c.users ==> r != Itoa(from) + " unknow user"
  {
    assert Itoa(0) == "0";
    Nickname(UserOrZero(c, from))
  }

  /** `<date> <id> <sender>`, the head every rendered line starts with. */
  function LineHead(c: EntityCache, fmtDate: Int32 -> string, m: Message): string
    requires m.Message?
  {
    fmtDate(m.date) + " " + Itoa(m.id) + " " + SenderName(c, m.fromId)
  }

  /** `parseMessage`: the line printed for a message, if any. */
  function Render(c: EntityCache, fmtDate: Int32 -> string, m: Message): (r: Option<string>)
    ensures !m.Message? ==> r.None?
    ensures m.Message? ==> (r.Some? <==> !m.toId.OtherPeer?)
    ensures m.Message? && m.toId.PeerUser? ==>
      r == Some(LineHead(c, fmtDate, m) + " to " + Nickname(UserOrZero(c, m.toId.userId)) + ": " + m.text)
    ensures m.Message? && m.toId.PeerChat? ==>
      var t := ChatOrZero(c, m.toId.chatId);
      r == Some(LineHead(c, fmtDate, m) + " in " + t.title + "(" + Itoa(t.id) + "): " + m.text)
    ensures m.Message? && m.toId.PeerChannel? ==>
      var t := ChannelOrZero(c, m.toId.channelId);
      r == Some(LineHead(c, fmtDate, m) + " in " + t.title + "(" + Itoa(t.id) + "): " + m.text)
  {
    match m
    case MessageEmpty(_) => None
    case OtherMessage(_) => None
    case Message(id, from, to, date, text) =>
      var head := fmtDate(date) + " " + Itoa(id) + " " + SenderName(c, from);
      match to
      case PeerUser(u) => Some(head + " to " + Nickname(UserOrZero(c, u)) + ": " + text)
      case PeerChat(k) =>
        var chat := ChatOrZero(c, k);
        Some(head + " in " + chat.title + "(" + Itoa(chat.id) + "): " + text)
      case PeerChannel(k) =>
        var channel := ChannelOrZero(c, k);
        Some(head + " in " + channel.title + "(" + Itoa(channel.id) + "): " + text)
      case OtherPeer(_) => None
  }

  /** `parseMessage` as a function value, for the loops over messages. */
  function LineOf(c: EntityCache, fmtDate: Int32 -> string): Message -> Option<string> {
    m => Render(c, fmtDate, m)
  }

  /** The lines printed for a list of messages, in order. */
  function RenderAll(c: EntityCache, fmtDate: Int32 -> string, ms: seq<Message>): (r: seq<string>)
    ensures |r| <= |ms|
    ensures r == [] <==> forall i :: 0 <= i < |ms| ==> Render(c, fmtDate, ms[i]).None?
    ensures forall k :: 0 <= k < |r| ==>
      exists i :: 0 <= i < |ms| && Render(c, fmtDate, ms[i]) == Some(r[k])
  {
    var f := LineOf(c, fmtDate);
    var r := FilterMap(ms, f);
    FilterMapFrom(ms, f);
    assert forall i :: 0 <= i < |ms| ==> f(ms[i]) == Render(c, fmtDate, ms[i]);
    assert forall k :: 0 <= k < |r| ==> exists i :: 0 <= i < |ms| && Render(c, fmtDate, ms[i]) == Some(r[k]) by {
      forall k | 0 <= k < |r| ensures exists i :: 0 <= i < |ms| && Render(c, fmtDate, ms[i]) == Some(r[k]) {
        var i :| 0 <= i < |ms| && f(ms[i]).Some? && r[k] == f(ms[i]).value;
        assert Render(c, fmtDate, ms[i]) == Some(r[k]);
      }
    }
    r
  }

  /** When every message renders, line `i` is the line of message `i`. */
  lemma RenderAllLineByLine(c: EntityCache, fmtDate: Int32 -> string, ms: seq<Message>)
    requires forall i :: 0 <= i < |ms| ==> Render(c, fmtDate, ms[i]).Some?
    ensures var r := RenderAll(c, fmtDate, ms);
      |r| == |ms| && forall i :: 0 <= i < |ms| ==> r[i] == Render(c, fmtDate, ms[i]).value
  {
    assert forall i :: 0 <= i < |ms| ==> LineOf(c, fmtDate)(ms[i]) == Render(c, fmtDate, ms[i]);
    FilterMapEveryItem(ms, LineOf(c, fmtDate));
  }

  /** One message prints its own line, or nothing. */
  lemma RenderAllOne(c: EntityCache, fmtDate: Int32 -> string, m: Message)
    ensures RenderAll(c, fmtDate, [m]) == match Render(c, fmtDate, m) case Some(line) => [line] case None => []
  {
    FilterMapOne(m, LineOf(c, fmtDate));
  }

  /** The lines of consecutive message lists are printed one list after the
      other: rendering keeps the order of the messages. */
  lemma RenderAllAppend(c: EntityCache, fmtDate: Int32 -> string, a: seq<Message>, b: seq<Message>)
    ensures RenderAll(c, fmtDate, a + b) == RenderAll(c, fmtDate, a) + RenderAll(c, fmtDate, b)
  {
    FilterMapAppend(a, b, LineOf(c, fmtDate));
  }

  /** A message only reads the cache entries of its sender and its
      destination: caches that agree on those render it alike. */
  lemma RenderReadsOnlyItsPeers(c: EntityCache, d: EntityCache, fmtDate: Int32 -> string, m: Message)
    requires m.Message?
    requires UserOrZero(c, m.fromId) == UserOrZero(d, m.fromId)
    requires m.toId.PeerUser? ==> UserOrZero(c, m.toId.userId) == UserOrZero(d, m.toId.userId)
    requires m.toId.PeerChat? ==> ChatOrZero(c, m.toId.chatId) == ChatOrZero(d, m.toId.chatId)
    requires m.toId.PeerChannel? ==> ChannelOrZero(c, m.toId.channelId) == ChannelOrZero(d, m.toId.channelId)
    ensures Render(c, fmtDate, m) == Render(d, fmtDate, m)
  {
  }

  /** A sender or chat the cache has never seen degrades to the zero value:
      the zero user's nickname `0  ` and an empty chat title with id 0. */
  lemma MissingEntitiesRenderAsZero(c: EntityCache, fmtDate: Int32 -> string, m: Message)
    requires m.Message? && m.toId.PeerChat?
    requires m.fromId !in c.users && m.toId.chatId !in c.chats
    ensures SenderName(c, m.fromId) == "0  "
    ensures Render(c, fmtDate, m) == Some(LineHead(c, fmtDate, m) + " in (0): " + m.text)
  {
    assert Itoa(0) == "0";
    assert Nickname(ZeroUser) == "0" + " " + "" + " " + "";
    var head := LineHead(c, fmtDate, m);
    assert head + " in " + "" + "(" + "0" + "): " + m.text == head + " in (0): " + m.text;
  }
}
