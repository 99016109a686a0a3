/** Worked examples: one reconciliation of a full difference, a
    difference-too-long on top of it, and two commands. */
module Scenarios {
  import opened Base
  import opened Decimal
  import opened Text
  import opened Entities
  import opened Cache
  import opened Render
  import opened Reconciler
  import opened Commands

  const Ann := User(7, 0, "Ann", "", "", "")
  const Hello := Message(1, 7, PeerUser(7), 1010, "hi")
  const Before := Cursor(100, 5, 1000, 10, 0)
  const After := Cursor(105, 5, 1010, 11, 0)

  /** Absorbing a response whose only user is Ann caches exactly Ann. */
  lemma AnnCached(p: Payload)
    requires p.users == [UserEntry(Ann)]
    ensures Absorb(EmptyCache, p).users == map[7 := Ann]
  {
    var cache := Absorb(EmptyCache, p);
    LastUserEntryWins(EmptyCache, p, 0);
    forall k | k != 7 ensures k !in cache.users {
      UntouchedKeysKept(EmptyCache, p, k);
    }
  }

  /** Ann's message to herself renders with both nicknames. */
  lemma HelloLine(c: EntityCache, fmtDate: Int32 -> string)
    requires c.users == map[7 := Ann]
    ensures RenderAll(c, fmtDate, [Hello]) == [fmtDate(1010) + " 1 7 Ann  to 7 Ann : hi"]
  {
    assert Itoa(7) == "7" && Itoa(1) == "1";
    assert Nickname(Ann) == "7 Ann ";
    assert UserOrZero(c, 7) == Ann;
    var date := fmtDate(1010);
    assert LineHead(c, fmtDate, Hello) == date + " 1 7 Ann ";
    assert date + " 1 7 Ann " + " to " + "7 Ann " + ": " + "hi" == date + " 1 7 Ann  to 7 Ann : hi";
    assert Render.Render(c, fmtDate, Hello) == Some(date + " 1 7 Ann  to 7 Ann : hi");
    assert [Hello][1..] == [];
  }

  /** A difference carrying Ann and her message to herself, with no update
      records: both variants install the embedded state, cache Ann and
      print one line. */
  lemma FirstDifference(v: Variant, fmtDate: Int32 -> string)
    ensures var d := Difference(Payload([Hello], [], [], [UserEntry(Ann)]), UpdatesState(After));
      var r := ApplyUpdate(v, Session(true, Some(Before), EmptyCache), d, fmtDate);
      && r.Running?
      && r.session.cursor == Some(After)
      && r.session.cache.users == map[7 := Ann]
      && r.printed == [fmtDate(1010) + " 1 7 Ann  to 7 Ann : hi"]
  {
    var p := Payload([Hello], [], [], [UserEntry(Ann)]);
    AnnCached(p);
    HelloLine(Absorb(EmptyCache, p), fmtDate);
    assert WrongTypeLines([]) == [];
    assert RecordMessages([]) == [];
  }

  /** A difference-too-long on top of that cursor moves only Pts. */
  lemma TooLongAfterFirstDifference(v: Variant, c: EntityCache, fmtDate: Int32 -> string)
    ensures var r := ApplyUpdate(v, Session(true, Some(After), c), DifferenceTooLong(500), fmtDate);
      r == Running(Session(true, Some(Cursor(500, 5, 1010, 11, 0)), c), [])
  {
  }

  /** With no user 42 cached, `umsg 42 <text>` finds nobody, returns no
      error and sends nothing. */
  lemma MessageToUnknownUser(c: EntityCache, text: string, callError: Option<string>)
    requires 42 !in c.users
    ensures var r := RunCommand(Command("umsg", "42 " + text), c);
      r == NotFound(42) && !Sends(r) && ReturnedError(r, callError).None?
  {
    assert Itoa(42) == "42";
    ParseTargetOfItoa(42, text);
    assert Itoa(42) + " " + text == "42 " + text;
    assert ParseTarget("42 " + text) == Target("42", 42, text);
    assert ToInt32(42) == 42;
  }

  /** An unknown command name is reported as such. */
  lemma UnknownCommand(c: EntityCache, callError: Option<string>)
    ensures var r := RunCommand(Command("foo", ""), c);
      r == Unknown && ReturnedError(r, callError) == Some("Unknow command") && !Sends(r)
  {
  }
}
