/** One poll tick (`processUpdates`) and the contact-list load at start-up.
    The RPCs are parameters: `getState` is the reply `updates.getState`
    would give, `getDifference` the reply to each possible
    `updates.getDifference` request. */
module Driver {
  import opened Base
  import opened Entities
  import opened Cache
  import opened Reconciler

  /** The RPCs a poll tick can issue. `GetDifference` carries its arguments
      in call order; the client passes its Unread_count second. */
  datatype Request =
    | GetState
    | GetDifference(pts: Int32, ptsTotalLimit: Int32, date: Int32, qts: Int32)

  /** The requests issued during a tick and where the tick leaves the client. */
  datatype Tick = Tick(requests: seq<Request>, step: Step)

  /** telegram.go calls `os.Exit(2)`; main.go calls `log.Fatal`, which exits
      with status 1. */
  function FatalExitCode(v: Variant): (code: int)
    ensures code != 0
    ensures v.Current? <==> code == 2
    ensures v.Legacy? <==> code == 1
  {
    match v
    case Current => 2
    case Legacy => 1
  }

  /** `processUpdates`. */
  function Poll(v: Variant, s: Session, getState: RpcResult<StateObject>,
                getDifference: Request -> RpcResult<Difference>,
                fmtDate: Int32 -> string): (t: Tick)
    // disconnected: no request, nothing changes.
    ensures !s.connected ==> t == Tick([], Running(s, []))
    // no cursor yet: fetch the state and install it, nothing else that tick.
    ensures s.connected && s.cursor.None? ==>
      && t.requests == [GetState]
      && (t.step.Running? <==> getState.RpcOk? && getState.value.UpdatesState?)
      && (t.step.Running? ==> t.step == Running(s.(cursor := Some(getState.value.state)), []))
      && (t.step.Halted? ==> t.step == Halted([], Exited(FatalExitCode(v))))
    // tracking: one difference request built from the cursor.
    ensures s.connected && s.cursor.Some? ==>
      var c := s.cursor.value;
      var request := GetDifference(c.pts, c.unreadCount, c.date, c.qts);
      && t.requests == [request]
      && (getDifference(request).RpcError? ==> t.step == Running(s, []))
      && (getDifference(request).RpcOk? ==> t.step == ApplyUpdate(v, s, getDifference(request).value, fmtDate))
  {
    if !s.connected then Tick([], Running(s, []))
    else if s.cursor.None? then
      match getState
      case RpcError(_) => Tick([GetState], Halted([], Exited(FatalExitCode(v))))
      case RpcOk(NotAState(_)) => Tick([GetState], Halted([], Exited(FatalExitCode(v))))
      case RpcOk(UpdatesState(c)) => Tick([GetState], Running(s.(cursor := Some(c)), []))
    else
      var c := s.cursor.value;
      var request := GetDifference(c.pts, c.unreadCount, c.date, c.qts);
      match getDifference(request)
      case RpcError(_) => Tick([request], Running(s, []))
      case RpcOk(d) => Tick([request], ApplyUpdate(v, s, d, fmtDate))
  }

  /** Polling never reaches the nil-cursor crash of `parseUpdate`, and a
      connected client that keeps running always holds a cursor after a tick. */
  lemma PollKeepsCursor(v: Variant, s: Session, getState: RpcResult<StateObject>,
                        getDifference: Request -> RpcResult<Difference>, fmtDate: Int32 -> string)
    ensures var t := Poll(v, s, getState, getDifference, fmtDate);
      && (t.step.Halted? ==> t.step.halt != Panicked(NilCursor))
      && (s.connected && t.step.Running? ==> t.step.session.cursor.Some?)
      && (t.step.Running? ==> t.step.session.connected == s.connected)
  {
    var t := Poll(v, s, getState, getDifference, fmtDate);
    if s.connected && s.cursor.Some? {
      var c := s.cursor.value;
      var request := GetDifference(c.pts, c.unreadCount, c.date, c.qts);
      if getDifference(request).RpcOk? {
        var d := getDifference(request).value;
        assert t.step == ApplyUpdate(v, s, d, fmtDate);
      }
    }
  }

  /** The reply of `contacts.getContacts`. */
  datatype ContactsObject = ContactsList(users: seq<UserObject>) | NotContacts(typeName: string)

  datatype LoadError = LoadRpcError(message: string) | WrongReplyType(typeName: string)

  datatype LoadResult = Loaded(cache: EntityCache) | LoadFailed(error: LoadError)

  /** `LoadContacts` keeps user entries only (a checked type assertion). */
  function PickContact(o: UserObject): (w: Option<(Int32, User)>)
    ensures w.Some? <==> o.UserEntry?
    ensures w.Some? ==> w.value == (o.user.id, o.user)
  {
    if o.UserEntry? then Some((o.user.id, o.user)) else None
  }

  /** `LoadContacts`: upserts every user of the contact list. */
  function LoadContacts(c: EntityCache, reply: RpcResult<ContactsObject>): (r: LoadResult)
    ensures reply.RpcError? ==> r == LoadFailed(LoadRpcError(reply.message))
    ensures reply.RpcOk? && reply.value.NotContacts? ==> r == LoadFailed(WrongReplyType(reply.value.typeName))
    ensures r.Loaded? ==> reply.RpcOk? && reply.value.ContactsList?
    ensures r.Loaded? ==> r.cache.chats == c.chats && r.cache.channels == c.channels
    ensures r.Loaded? ==> forall i :: 0 <= i < |reply.value.users| && reply.value.users[i].UserEntry? ==>
      reply.value.users[i].user.id in r.cache.users
    ensures r.Loaded? ==> c.users.Keys <= r.cache.users.Keys
    ensures r.Loaded? ==> r.cache.users == Upsert(c.users, reply.value.users, PickContact)
  {
    match reply
    case RpcError(e) => LoadFailed(LoadRpcError(e))
    case RpcOk(NotContacts(name)) => LoadFailed(WrongReplyType(name))
    case RpcOk(ContactsList(users)) =>
      UpsertKeepsKeys(c.users, users, PickContact);
      var r := c.(users := Upsert(c.users, users, PickContact));
      assert forall i :: 0 <= i < |users| && users[i].UserEntry? ==> users[i].user.id in r.users by {
        forall i | 0 <= i < |users| && users[i].UserEntry?
          ensures users[i].user.id in r.users
        {
          assert WritesKey(PickContact(users[i]), users[i].user.id);
        }
      }
      Loaded(r)
  }

  /** The last user entry for an id decides the loaded contact. */
  lemma LoadContactsLastEntryWins(c: EntityCache, users: seq<UserObject>, i: int)
    requires 0 <= i < |users| && users[i].UserEntry?
    requires forall j :: i < j < |users| && users[j].UserEntry? ==> users[j].user.id != users[i].user.id
    ensures var r := LoadContacts(c, RpcOk(ContactsList(users)));
      r.Loaded? && r.cache.users[users[i].user.id] == users[i].user
  {
    LastWriteWins(users, PickContact, i);
  }

  /** A cached user that no contact entry names stays as it was, and an id
      that no entry names stays absent. */
  lemma LoadContactsKeepsOthers(c: EntityCache, users: seq<UserObject>, k: Int32)
    requires forall j :: 0 <= j < |users| && users[j].UserEntry? ==> users[j].user.id != k
    ensures var r := LoadContacts(c, RpcOk(ContactsList(users)));
      && r.Loaded?
      && (k in r.cache.users <==> k in c.users)
      && (k in c.users ==> r.cache.users[k] == c.users[k])
  {
    assert LastWrite(users, PickContact, k).None?;
  }

  /** Unlike the reconciler, the contact load skips entries that are not
      users instead of writing the zero user under key 0. */
  lemma LoadContactsSkipsNonUsers(c: EntityCache, users: seq<UserObject>)
    requires forall i :: 0 <= i < |users| ==> users[i].NotAUser?
    ensures LoadContacts(c, RpcOk(ContactsList(users))) == Loaded(c)
  {
    var r := Upsert(c.users, users, PickContact);
    forall k ensures LastWrite(users, PickContact, k).None? {
      assert forall i :: 0 <= i < |users| ==> PickContact(users[i]).None?;
    }
    assert r == c.users;
  }
}
