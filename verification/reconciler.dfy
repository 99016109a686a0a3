/** The difference reconciler (`parseUpdate` and `parseUpdateDifference`):
    applies one `updates.getDifference` response to the sync cursor and the
    entity cache, and collects the lines the client prints on the way. The
    repository holds two copies that differ in one detail, selected by
    `Variant`. */
module Reconciler {
  import opened Base
  import opened Entities
  import opened Cache
  import opened Render

  /** `Current` is telegram.go, which also takes Pts and Unread_count from
      each message-bearing update record; `Legacy` is main.go, which does
      not. */
  datatype Variant = Current | Legacy

  /** The five fields of `TL_updates_state`. */
  datatype Cursor = Cursor(pts: Int32, qts: Int32, date: Int32, seqNo: Int32, unreadCount: Int32)

  const ZeroCursor := Cursor(0, 0, 0, 0, 0)

  /** The embedded `State` / `Intermediate_state` object of a response. */
  datatype StateObject = UpdatesState(state: Cursor) | NotAState(typeName: string)

  datatype UserObject = UserEntry(user: User) | NotAUser(typeName: string)

  datatype ChatObject =
    | ChatEntry(chat: Chat)
    | ChannelEntry(channel: Channel)
    | OtherChatObject(typeName: string)

  /** The `Other_updates` records of a response. */
  datatype UpdateRecord =
    | UpdateNewMessage(message: Message, pts: Int32, ptsCount: Int32)
    | UpdateNewChannelMessage(message: Message, pts: Int32, ptsCount: Int32)
    | UpdateEditMessage(message: Message, pts: Int32, ptsCount: Int32)
    | UpdateEditChannelMessage(message: Message, pts: Int32, ptsCount: Int32)
    | OtherUpdate(typeName: string)

  /** The lists `updates.difference` and `updates.differenceSlice` share. */
  datatype Payload = Payload(
    newMessages: seq<Message>,
    otherUpdates: seq<UpdateRecord>,
    chats: seq<ChatObject>,
    users: seq<UserObject>)

  /** The responses of `updates.getDifference`, and anything else. */
  datatype Difference =
    | DifferenceEmpty(date: Int32, seqNo: Int32)
    | Difference(payload: Payload, state: StateObject)
    | DifferenceSlice(payload: Payload, intermediateState: StateObject)
    | DifferenceTooLong(pts: Int32)
    | OtherResponse(typeName: string)

  /** The client's mutable state: the connected flag, the cursor (absent
      until the first successful state fetch) and the cache. */
  datatype Session = Session(connected: bool, cursor: Option<Cursor>, cache: EntityCache)

  /** Why the process stops: a Go runtime panic, or an explicit exit. */
  datatype PanicReason = NilCursor | WrongUpdateType
  datatype Halt = Panicked(reason: PanicReason) | Exited(code: int)

  /** The state after one step and the lines printed to the terminal. */
  datatype Step =
    | Running(session: Session, printed: seq<string>)
    | Halted(printed: seq<string>, halt: Halt)

  datatype RecordsResult =
    | RecordsDone(cursor: Cursor, printed: seq<string>)
    | RecordsPanicked(printed: seq<string>)

  /** The comma-ok type assertion `state, _ := diff.State.(TL_updates_state)`:
      anything but a state object gives the zero state. */
  function StateOf(o: StateObject): (c: Cursor)
    ensures o.UpdatesState? ==> c == o.state
    ensures o.NotAState? ==> c == ZeroCursor
  {
    match o
    case UpdatesState(st) => st
    case NotAState(_) => ZeroCursor
  }

  /** `cli.users[user.Id] = user` after a comma-ok assertion: an entry that
      is not a user writes the zero user under key 0. */
  function PickUser(o: UserObject): (w: Option<(Int32, User)>)
    ensures w.Some? && w.value.1.id == w.value.0
    ensures o.UserEntry? ==> w == Some((o.user.id, o.user))
    ensures o.NotAUser? ==> w == Some((0, ZeroUser))
  {
    match o
    case UserEntry(u) => Some((u.id, u))
    case NotAUser(_) => Some((0, ZeroUser))
  }

  /** Chat entries go to the chats map; nothing else does. */
  function PickChat(o: ChatObject): (w: Option<(Int32, Chat)>)
    ensures w.Some? <==> o.ChatEntry?
    ensures w.Some? ==> w.value == (o.chat.id, o.chat)
  {
    if o.ChatEntry? then Some((o.chat.id, o.chat)) else None
  }

  /** Channel entries go to the channels map; nothing else does. */
  function PickChannel(o: ChatObject): (w: Option<(Int32, Channel)>)
    ensures w.Some? <==> o.ChannelEntry?
    ensures w.Some? ==> w.value == (o.channel.id, o.channel)
  {
    if o.ChannelEntry? then Some((o.channel.id, o.channel)) else None
  }

  /** The entity stages of `parseUpdateDifference`: every user entry, then
      every chat-or-channel entry routed by its tag. */
  function Absorb(c: EntityCache, p: Payload): (r: EntityCache)
    ensures c.users.Keys <= r.users.Keys
    ensures c.chats.Keys <= r.chats.Keys
    ensures c.channels.Keys <= r.channels.Keys
  {
    var r := EntityCache(
      Upsert(c.users, p.users, PickUser),
      Upsert(c.chats, p.chats, PickChat),
      Upsert(c.channels, p.chats, PickChannel));
    UpsertKeepsKeys(c.users, p.users, PickUser);
    UpsertKeepsKeys(c.chats, p.chats, PickChat);
    UpsertKeepsKeys(c.channels, p.chats, PickChannel);
    r
  }

  /** Absorbing a response keeps every cache entry under its own id. */
  lemma AbsorbKeepsWellKeyed(c: EntityCache, p: Payload)
    requires WellKeyed(c)
    ensures WellKeyed(Absorb(c, p))
  {
    UpsertKeyed(c.users, p.users, PickUser, (u: User) => u.id);
    UpsertKeyed(c.chats, p.chats, PickChat, (t: Chat) => t.id);
    UpsertKeyed(c.channels, p.chats, PickChannel, (t: Channel) => t.id);
  }

  /** The `Wrong type: %T` line of a chat entry that is neither a chat nor
      a channel. */
  function WrongTypeLine(o: ChatObject): Option<string> {
    if o.OtherChatObject? then Some("Wrong type: " + o.typeName) else None
  }

  /** The `Wrong type: %T` lines printed for chat entries of other types. */
  function WrongTypeLines(os: seq<ChatObject>): (r: seq<string>)
    ensures |r| <= |os|
    ensures r == [] <==> forall i :: 0 <= i < |os| ==> !os[i].OtherChatObject?
    ensures forall k :: 0 <= k < |r| ==>
      exists i :: 0 <= i < |os| && os[i].OtherChatObject? && r[k] == "Wrong type: " + os[i].typeName
  {
    var f := WrongTypeLine;
    var r := FilterMap(os, f);
    FilterMapFrom(os, f);
    assert forall i :: 0 <= i < |os| ==> f(os[i]).Some? == os[i].OtherChatObject?;
    assert forall k :: 0 <= k < |r| ==>
      exists i :: 0 <= i < |os| && os[i].OtherChatObject? && r[k] == "Wrong type: " + os[i].typeName by {
      forall k | 0 <= k < |r|
        ensures exists i :: 0 <= i < |os| && os[i].OtherChatObject? && r[k] == "Wrong type: " + os[i].typeName
      {
        var i :| 0 <= i < |os| && f(os[i]).Some? && r[k] == f(os[i]).value;
        assert os[i].OtherChatObject? && f(os[i]) == WrongTypeLine(os[i]);
      }
    }
    r
  }

  /** One chat entry prints `Wrong type: <type>` exactly when it is neither
      a chat nor a channel. */
  lemma WrongTypeLinesOne(o: ChatObject)
    ensures WrongTypeLines([o]) == if o.OtherChatObject? then ["Wrong type: " + o.typeName] else []
  {
    FilterMapOne(o, WrongTypeLine);
  }

  /** The lines of consecutive entry lists follow each other: one line per
      foreign entry, in the order of the entries. */
  lemma WrongTypeLinesAppend(a: seq<ChatObject>, b: seq<ChatObject>)
    ensures WrongTypeLines(a + b) == WrongTypeLines(a) + WrongTypeLines(b)
  {
    FilterMapAppend(a, b, WrongTypeLine);
  }

  /** The records whose counters telegram.go copies into the cursor. */
  predicate BearsMessage(r: UpdateRecord) {
    r.UpdateNewMessage? || r.UpdateNewChannelMessage? || r.UpdateEditMessage?
  }

  /** `(Pts, Pts_count)` of the last message-bearing record, if any. */
  function LastCounters(recs: seq<UpdateRecord>): (r: Option<(Int32, Int32)>)
    ensures r.None? <==> forall i :: 0 <= i < |recs| ==> !BearsMessage(recs[i])
    ensures r.Some? ==> exists i :: && 0 <= i < |recs| && BearsMessage(recs[i])
                                    && r.value == (recs[i].pts, recs[i].ptsCount)
                                    && forall j :: i < j < |recs| ==> !BearsMessage(recs[j])
  {
    if recs == [] then None
    else
      var later := LastCounters(recs[1..]);
      assert forall j :: 1 <= j < |recs| ==> recs[j] == recs[1..][j - 1];
      if later.Some? then
        assert exists i :: && 0 <= i < |recs| && BearsMessage(recs[i])
                           && later.value == (recs[i].pts, recs[i].ptsCount)
                           && forall j :: i < j < |recs| ==> !BearsMessage(recs[j]) by {
          var i :| && 0 <= i < |recs[1..]| && BearsMessage(recs[1..][i])
                   && later.value == (recs[1..][i].pts, recs[1..][i].ptsCount)
                   && forall j :: i < j < |recs[1..]| ==> !BearsMessage(recs[1..][j]);
          assert recs[i + 1] == recs[1..][i];
        }
        later
      else if BearsMessage(recs[0]) then Some((recs[0].pts, recs[0].ptsCount))
      else None
  }

  /** The messages the record loop renders before it stops: those of the
      message-bearing records up to the first `updateEditChannelMessage`. */
  function RecordMessages(recs: seq<UpdateRecord>): seq<Message> {
    if recs == [] || recs[0].UpdateEditChannelMessage? then []
    else if recs[0].OtherUpdate? then RecordMessages(recs[1..])
    else [recs[0].message] + RecordMessages(recs[1..])
  }

  /** The `Other_updates` loop of `parseUpdateDifference`. The record types
      that carry a message render it; in telegram.go they also overwrite
      Pts and Unread_count with the record's Pts and Pts_count. An
      `updateEditChannelMessage` is asserted to the wrong type, and the Go
      runtime panics there. */
  function ProcessRecords(v: Variant, cur: Cursor, c: EntityCache, fmtDate: Int32 -> string,
                          recs: seq<UpdateRecord>): (r: RecordsResult)
    ensures r.RecordsDone? <==> forall i :: 0 <= i < |recs| ==> !recs[i].UpdateEditChannelMessage?
    ensures r.printed == RenderAll(c, fmtDate, RecordMessages(recs))
    decreases |recs|
  {
    if recs == [] then RecordsDone(cur, [])
    else
      var rec := recs[0];
      assert forall j :: 1 <= j < |recs| ==> recs[j] == recs[1..][j - 1];
      if rec.UpdateEditChannelMessage? then RecordsPanicked([])
      else if rec.OtherUpdate? then ProcessRecords(v, cur, c, fmtDate, recs[1..])
      else
        var line := RenderAll(c, fmtDate, [rec.message]);
        var next := if v.Current? then cur.(pts := rec.pts, unreadCount := rec.ptsCount) else cur;
        RenderAllAppend(c, fmtDate, [rec.message], RecordMessages(recs[1..]));
        match ProcessRecords(v, next, c, fmtDate, recs[1..])
        case RecordsDone(final, out) => RecordsDone(final, line + out)
        case RecordsPanicked(out) => RecordsPanicked(line + out)
  }

  /** Where the record loop leaves the cursor: Qts, Date and Seq never
      change; main.go changes nothing, and telegram.go ends with the Pts and
      Pts_count of the last message-bearing record. */
  lemma {:induction false} ProcessRecordsCursor(v: Variant, cur: Cursor, c: EntityCache,
                                                fmtDate: Int32 -> string, recs: seq<UpdateRecord>)
    ensures var r := ProcessRecords(v, cur, c, fmtDate, recs);
      r.RecordsDone? ==>
      && r.cursor.qts == cur.qts && r.cursor.date == cur.date && r.cursor.seqNo == cur.seqNo
      && (v.Legacy? ==> r.cursor == cur)
      && (v.Current? && LastCounters(recs).None? ==> r.cursor == cur)
      && (v.Current? && LastCounters(recs).Some? ==>
            r.cursor == cur.(pts := LastCounters(recs).value.0, unreadCount := LastCounters(recs).value.1))
    decreases |recs|
  {
    if recs != [] {
      var rec := recs[0];
      if rec.OtherUpdate? {
        ProcessRecordsCursor(v, cur, c, fmtDate, recs[1..]);
        assert LastCounters(recs) == LastCounters(recs[1..]);
      } else {
        var next := if v.Current? then cur.(pts := rec.pts, unreadCount := rec.ptsCount) else cur;
        ProcessRecordsCursor(v, next, c, fmtDate, recs[1..]);
      }
    }
  }

  /** `parseUpdateDifference` after the cursor was replaced by `embedded`:
      users, chats and channels first, then the new messages, then the
      update records, so that every message renders against the entities
      of its own response. */
  function ApplyPayload(v: Variant, s: Session, p: Payload, embedded: Cursor,
                        fmtDate: Int32 -> string): (r: Step)
    ensures r.Running? <==> forall i :: 0 <= i < |p.otherUpdates| ==> !p.otherUpdates[i].UpdateEditChannelMessage?
    ensures r.Halted? ==> r.halt == Panicked(WrongUpdateType)
    ensures r.Running? ==> r.session.connected == s.connected && r.session.cache == Absorb(s.cache, p)
    ensures r.Running? ==>
      && r.session.cursor.Some?
      && var now := r.session.cursor.value;
         && now.qts == embedded.qts && now.date == embedded.date && now.seqNo == embedded.seqNo
         && (v.Legacy? ==> now == embedded)
         && (v.Current? && LastCounters(p.otherUpdates).None? ==> now == embedded)
         && (v.Current? && LastCounters(p.otherUpdates).Some? ==>
               now.pts == LastCounters(p.otherUpdates).value.0
               && now.unreadCount == LastCounters(p.otherUpdates).value.1)
    ensures var cache := Absorb(s.cache, p);
      r.printed == WrongTypeLines(p.chats) + RenderAll(cache, fmtDate, p.newMessages)
                   + RenderAll(cache, fmtDate, RecordMessages(p.otherUpdates))
  {
    var cache := Absorb(s.cache, p);
    var shown := WrongTypeLines(p.chats) + RenderAll(cache, fmtDate, p.newMessages);
    ProcessRecordsCursor(v, embedded, cache, fmtDate, p.otherUpdates);
    match ProcessRecords(v, embedded, cache, fmtDate, p.otherUpdates)
    case RecordsDone(cur, out) => Running(Session(s.connected, Some(cur), cache), shown + out)
    case RecordsPanicked(out) => Halted(shown + out, Panicked(WrongUpdateType))
  }

  /** Whether a response carries an `updateEditChannelMessage` record. */
  predicate HasEditChannelRecord(d: Difference) {
    (d.Difference? || d.DifferenceSlice?) &&
    exists i :: 0 <= i < |d.payload.otherUpdates| && d.payload.otherUpdates[i].UpdateEditChannelMessage?
  }

  /** The cursor a difference or difference slice installs. */
  function Embedded(d: Difference): Cursor
    requires d.Difference? || d.DifferenceSlice?
  {
    if d.Difference? then StateOf(d.state) else StateOf(d.intermediateState)
  }

  /** `parseUpdate`: dispatch on the response type. */
  function ApplyUpdate(v: Variant, s: Session, d: Difference, fmtDate: Int32 -> string): (r: Step)
    // differenceEmpty: only Date and Seq change; a missing cursor is a nil dereference.
    ensures d.DifferenceEmpty? && s.cursor.None? ==> r == Halted([], Panicked(NilCursor))
    ensures d.DifferenceEmpty? && s.cursor.Some? ==>
      && r.Running? && r.printed == [] && r.session.cursor.Some?
      && r.session.connected == s.connected && r.session.cache == s.cache
      && var (was, now) := (s.cursor.value, r.session.cursor.value);
         now.date == d.date && now.seqNo == d.seqNo
         && now.pts == was.pts && now.qts == was.qts && now.unreadCount == was.unreadCount
    // differenceTooLong: only Pts changes; a missing cursor is a nil dereference.
    ensures d.DifferenceTooLong? && s.cursor.None? ==> r == Halted([], Panicked(NilCursor))
    ensures d.DifferenceTooLong? && s.cursor.Some? ==>
      && r.Running? && r.printed == [] && r.session.cursor.Some?
      && r.session.connected == s.connected && r.session.cache == s.cache
      && var (was, now) := (s.cursor.value, r.session.cursor.value);
         now.pts == d.pts
         && now.qts == was.qts && now.date == was.date && now.seqNo == was.seqNo && now.unreadCount == was.unreadCount
    // any other response type is ignored.
    ensures d.OtherResponse? ==> r == Running(s, [])
    // difference and differenceSlice replace the cursor by the embedded state.
    ensures d.Difference? || d.DifferenceSlice? ==>
      && (r.Running? <==> !HasEditChannelRecord(d))
      && (r.Halted? ==> r.halt == Panicked(WrongUpdateType))
      && (var cache := Absorb(s.cache, d.payload);
          r.printed == WrongTypeLines(d.payload.chats) + RenderAll(cache, fmtDate, d.payload.newMessages)
                       + RenderAll(cache, fmtDate, RecordMessages(d.payload.otherUpdates)))
      && (r.Running? ==>
            && r.session.connected == s.connected
            && r.session.cache == Absorb(s.cache, d.payload)
            && r.session.cursor.Some?
            && var (emb, now) := (Embedded(d), r.session.cursor.value);
               && now.qts == emb.qts && now.date == emb.date && now.seqNo == emb.seqNo
               && (v.Legacy? ==> now == emb)
               && (v.Current? ==>
                     match LastCounters(d.payload.otherUpdates)
                     case None => now == emb
                     case Some((pts, count)) => now.pts == pts && now.unreadCount == count))
  {
    match d
    case DifferenceEmpty(date, seqNo) =>
      if s.cursor.None? then Halted([], Panicked(NilCursor))
      else Running(s.(cursor := Some(s.cursor.value.(date := date, seqNo := seqNo))), [])
    case Difference(p, st) => ApplyPayload(v, s, p, StateOf(st), fmtDate)
    case DifferenceSlice(p, st) => ApplyPayload(v, s, p, StateOf(st), fmtDate)
    case DifferenceTooLong(pts) =>
      if s.cursor.None? then Halted([], Panicked(NilCursor))
      else Running(s.(cursor := Some(s.cursor.value.(pts := pts))), [])
    case OtherResponse(_) => Running(s, [])
  }

  /** Absorbing the same response twice is absorbing it once. */
  lemma AbsorbIdempotent(c: EntityCache, p: Payload)
    ensures Absorb(Absorb(c, p), p) == Absorb(c, p)
  {
    UpsertIdempotent(c.users, p.users, PickUser);
    UpsertIdempotent(c.chats, p.chats, PickChat);
    UpsertIdempotent(c.channels, p.chats, PickChannel);
  }

  /** The last user entry for an id decides the cached user; an entry that
      is not a user stores the zero user under key 0. */
  lemma LastUserEntryWins(c: EntityCache, p: Payload, i: int)
    requires 0 <= i < |p.users|
    requires forall j :: i < j < |p.users| ==> PickUser(p.users[j]).value.0 != PickUser(p.users[i]).value.0
    ensures p.users[i].UserEntry? ==> Absorb(c, p).users[p.users[i].user.id] == p.users[i].user
    ensures p.users[i].NotAUser? ==> Absorb(c, p).users[0] == ZeroUser
  {
    LastWriteWins(p.users, PickUser, i);
  }

  /** The last chat entry for an id decides the cached chat, and the last
      channel entry for an id the cached channel; the two never mix. */
  lemma LastChatEntryWins(c: EntityCache, p: Payload, i: int)
    requires 0 <= i < |p.chats|
    requires p.chats[i].ChatEntry? || p.chats[i].ChannelEntry?
    requires p.chats[i].ChatEntry? ==>
      forall j :: i < j < |p.chats| && p.chats[j].ChatEntry? ==> p.chats[j].chat.id != p.chats[i].chat.id
    requires p.chats[i].ChannelEntry? ==>
      forall j :: i < j < |p.chats| && p.chats[j].ChannelEntry? ==> p.chats[j].channel.id != p.chats[i].channel.id
    ensures p.chats[i].ChatEntry? ==> Absorb(c, p).chats[p.chats[i].chat.id] == p.chats[i].chat
    ensures p.chats[i].ChannelEntry? ==> Absorb(c, p).channels[p.chats[i].channel.id] == p.chats[i].channel
  {
    if p.chats[i].ChatEntry? {
      LastWriteWins(p.chats, PickChat, i);
    } else {
      LastWriteWins(p.chats, PickChannel, i);
    }
  }

  /** A key no entry of the response writes keeps its entry (or its
      absence); entries of other chat types write nothing. */
  lemma UntouchedKeysKept(c: EntityCache, p: Payload, k: Int32)
    ensures (forall j :: 0 <= j < |p.users| ==> PickUser(p.users[j]).value.0 != k) ==>
      (k in Absorb(c, p).users <==> k in c.users) && (k in c.users ==> Absorb(c, p).users[k] == c.users[k])
    ensures (forall j :: 0 <= j < |p.chats| ==> !(p.chats[j].ChatEntry? && p.chats[j].chat.id == k)) ==>
      (k in Absorb(c, p).chats <==> k in c.chats) && (k in c.chats ==> Absorb(c, p).chats[k] == c.chats[k])
    ensures (forall j :: 0 <= j < |p.chats| ==> !(p.chats[j].ChannelEntry? && p.chats[j].channel.id == k)) ==>
      (k in Absorb(c, p).channels <==> k in c.channels) && (k in c.channels ==> Absorb(c, p).channels[k] == c.channels[k])
  {
    if forall j :: 0 <= j < |p.users| ==> PickUser(p.users[j]).value.0 != k {
      assert LastWrite(p.users, PickUser, k).None?;
    }
    if forall j :: 0 <= j < |p.chats| ==> !(p.chats[j].ChatEntry? && p.chats[j].chat.id == k) {
      assert LastWrite(p.chats, PickChat, k).None?;
    }
    if forall j :: 0 <= j < |p.chats| ==> !(p.chats[j].ChannelEntry? && p.chats[j].channel.id == k) {
      assert LastWrite(p.chats, PickChannel, k).None?;
    }
  }

  /** Applying a response keeps every cache entry under its own id. */
  lemma ApplyKeepsWellKeyed(v: Variant, s: Session, d: Difference, fmtDate: Int32 -> string)
    requires WellKeyed(s.cache)
    requires ApplyUpdate(v, s, d, fmtDate).Running?
    ensures WellKeyed(ApplyUpdate(v, s, d, fmtDate).session.cache)
  {
    if d.Difference? || d.DifferenceSlice? {
      AbsorbKeepsWellKeyed(s.cache, d.payload);
    }
  }

  /** Applying the same response a second time changes nothing more and
      prints the same lines again. */
  lemma ApplyIdempotent(v: Variant, s: Session, d: Difference, fmtDate: Int32 -> string)
    requires ApplyUpdate(v, s, d, fmtDate).Running?
    ensures var once := ApplyUpdate(v, s, d, fmtDate);
      var twice := ApplyUpdate(v, once.session, d, fmtDate);
      twice.Running? && twice.session == once.session && twice.printed == once.printed
  {
    if d.Difference? || d.DifferenceSlice? {
      AbsorbIdempotent(s.cache, d.payload);
    }
  }

  /** The two copies of the reconciler print the same lines, stop alike and
      fill the cache alike; their cursors differ in Pts and Unread_count
      only, and only when a record bears a message. */
  lemma VariantsDifferInCountersOnly(s: Session, d: Difference, fmtDate: Int32 -> string)
    ensures var (cur, leg) := (ApplyUpdate(Current, s, d, fmtDate), ApplyUpdate(Legacy, s, d, fmtDate));
      && cur.printed == leg.printed
      && cur.Running? == leg.Running?
      && (cur.Running? ==>
            && cur.session.cache == leg.session.cache && cur.session.connected == leg.session.connected
            && cur.session.cursor.Some? == leg.session.cursor.Some?
            && (cur.session.cursor.Some? ==>
                  var (a, b) := (cur.session.cursor.value, leg.session.cursor.value);
                  a.qts == b.qts && a.date == b.date && a.seqNo == b.seqNo))
      && ((d.Difference? || d.DifferenceSlice?) && cur.Running? && LastCounters(d.payload.otherUpdates).None? ==>
            cur == leg)
      && (!d.Difference? && !d.DifferenceSlice? ==> cur == leg)
  {
  }

  /** The cursor after a difference or slice never depends on the cursor
      before it. */
  lemma DifferenceForgetsOldCursor(v: Variant, s: Session, t: Session, d: Difference, fmtDate: Int32 -> string)
    requires d.Difference? || d.DifferenceSlice?
    requires s.cache == t.cache && s.connected == t.connected
    ensures ApplyUpdate(v, s, d, fmtDate) == ApplyUpdate(v, t, d, fmtDate)
  {
  }
}
