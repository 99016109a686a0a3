/** The command shell: `readCommand` turns an input line into a command,
    and `RunCommand` validates its arguments and decides what to do. The
    RPCs a command triggers are not performed here: the result names the
    action. */
module Commands {
  import opened Base
  import opened Decimal
  import opened Text
  import opened Entities
  import opened Cache

  datatype Command = Command(name: string, arguments: string)

  /** What `reader.ReadString('\n')` returned. Without an error the text
      holds at least the newline that ended the read. */
  datatype ReadResult = ReadFailed(message: string) | Line(text: string)

  /** `readCommand`: a line must start with a backslash; the name is the
      first space-separated token of the trimmed line, without its first
      backslash, in lower case; the arguments are the rest, or empty. */
  function ReadCommand(input: ReadResult): (r: Option<Command>)
    requires input.Line? ==> |input.text| > 0
    ensures input.ReadFailed? ==> r.None?
    ensures input.Line? ==> (r.Some? <==> input.text[0] == '\\')
    ensures r.Some? ==> ' ' !in r.value.name
  {
    match input
    case ReadFailed(_) => None
    case Line(text) =>
      if text[0] != '\\' then None else Some(SplitCommand(TrimSpace(text)))
  }

  /** The command in an already trimmed line. */
  function SplitCommand(trimmed: string): (cmd: Command)
    ensures ' ' !in cmd.name
  {
    var split := SplitOnce(trimmed, ' ');
    var raw := RemoveFirst(split.0, '\\');
    ToLowerKeepsSpaces(raw);
    Command(ToLower(raw), if split.1.Some? then split.1.value else "")
  }

  /** The command reader is undone by re-assembling the trimmed line: a
      backslash, a raw name that lower-cases to the command's name, and the
      arguments after one space when there are any. */
  lemma ReadCommandReassembles(text: string)
    requires |text| > 0 && text[0] == '\\'
    ensures var r := ReadCommand(Line(text));
      && r.Some?
      && exists raw :: && ToLower(raw) == r.value.name && ' ' !in raw
                       && TrimSpace(text) == "\\" + raw + (if r.value.arguments == "" then "" else " " + r.value.arguments)
  {
    var trimmed := TrimSpace(text);
    assert !IsSpace(text[0]);
    assert |trimmed| > 0 && trimmed[0] == '\\' && !IsSpace(trimmed[|trimmed| - 1]);
    assert ReadCommand(Line(text)) == Some(SplitCommand(trimmed));
    SplitCommandReassembles(trimmed);
  }

  lemma SplitCommandReassembles(trimmed: string)
    requires |trimmed| > 0 && trimmed[0] == '\\' && !IsSpace(trimmed[|trimmed| - 1])
    ensures var cmd := SplitCommand(trimmed);
      exists raw :: && ToLower(raw) == cmd.name && ' ' !in raw
                    && trimmed == "\\" + raw + (if cmd.arguments == "" then "" else " " + cmd.arguments)
  {
    var split := SplitOnce(trimmed, ' ');
    var head := split.0;
    var cmd := SplitCommand(trimmed);
    assert |head| > 0 && head[0] == '\\' by {
      if split.1.Some? {
        assert trimmed == head + [' '] + split.1.value;
        assert trimmed[0] == head[0];
      }
    }
    var raw := head[1..];
    assert RemoveFirst(head, '\\') == raw;
    assert cmd.name == ToLower(raw);
    assert ' ' !in raw by {
      assert forall x :: x in raw ==> x in head;
    }
    assert split.1.Some? ==> split.1.value != "";
    Reassemble(trimmed, head, raw, split.1, cmd.arguments);
  }

  /** The sequence algebra behind `SplitCommandReassembles`. */
  lemma Reassemble(trimmed: string, head: string, raw: string, tail: Option<string>, arguments: string)
    requires |head| > 0 && head[0] == '\\' && raw == head[1..]
    requires tail.None? ==> trimmed == head && arguments == ""
    requires tail.Some? ==> trimmed == head + [' '] + tail.value && arguments == tail.value != ""
    ensures trimmed == "\\" + raw + (if arguments == "" then "" else " " + arguments)
  {
    assert head == "\\" + raw;
  }

  /** The converse: a backslash, a name without spaces, then the arguments
      after one space, followed by the newline or other trailing white
      space, reads as that command, its name in lower case. */
  lemma ReadCommandOf(name: string, arguments: string, pad: string)
    requires ' ' !in name && AllSpace(pad)
    requires var line := "\\" + name + (if arguments == "" then "" else " " + arguments);
      !IsSpace(line[|line| - 1])
    ensures var line := "\\" + name + (if arguments == "" then "" else " " + arguments);
      ReadCommand(Line(line + pad)) == Some(Command(ToLower(name), arguments))
  {
    var line := "\\" + name + (if arguments == "" then "" else " " + arguments);
    TrimSpaceOfPadded(line, pad);
    assert (line + pad)[0] == '\\';
    SplitCommandOf(name, arguments);
  }

  /** The trimmed half of `ReadCommandOf`. */
  lemma SplitCommandOf(name: string, arguments: string)
    requires ' ' !in name
    ensures SplitCommand("\\" + name + (if arguments == "" then "" else " " + arguments))
         == Command(ToLower(name), arguments)
  {
    var head := "\\" + name;
    var line := head + (if arguments == "" then "" else " " + arguments);
    assert RemoveFirst(head, '\\') == name;
    if arguments == "" {
      assert line == head;
      assert ' ' !in line;
    } else {
      assert line == head + [' '] + arguments;
      SplitAtFirst(head, arguments, ' ');
    }
  }

  /** A line holding no backslash at its start is not a command. */
  lemma NonCommandLinesIgnored(text: string)
    requires |text| > 0 && text[0] != '\\'
    ensures ReadCommand(Line(text)) == None
  {
  }

  /** What `RunCommand` does. `Error` and `Unknown` are the error values it
      returns; `Me` and `Contacts` run `CurrentUser` and `Contacts` and return
      their error; `NotFound` prints `Can't find user with id: <id>` and
      returns nil; the send outcomes name the `messages.sendMessage` peer and
      text. */
  datatype Outcome =
    | Error(message: string)
    | NotFound(id: int)
    | SendToUser(userId: Int32, accessHash: Int64, text: string)
    | SendToChat(chatId: Int32, text: string)
    | Me
    | Contacts
    | Help
    | Quit
    | Unknown

  /** The error value `RunCommand` returns. `callError` is the error the
      `CurrentUser` or `Contacts` call of a `Me` or `Contacts` outcome
      returned; it is passed through unchanged. */
  function ReturnedError(o: Outcome, callError: Option<string>): (e: Option<string>)
    ensures o.Me? || o.Contacts? ==> e == callError
    ensures o.Error? ==> e == Some(o.message)
    ensures o.Unknown? ==> e == Some("Unknow command")
    ensures !(o.Me? || o.Contacts? || o.Error? || o.Unknown?) ==> e.None?
  {
    match o
    case Error(m) => Some(m)
    case Unknown => Some("Unknow command")
    case Me => callError
    case Contacts => callError
    case _ => None
  }

  /** Whether the outcome sends a message. */
  predicate Sends(o: Outcome) {
    o.SendToUser? || o.SendToChat?
  }

  const NotEnoughArguments := "Not enough arguments: peer id and msg required"

  /** The argument check `umsg` and `cmsg` share: `<id> <text>`. */
  datatype Target = Target(idText: string, id: int, text: string) | BadTarget(message: string)

  function ParseTarget(arguments: string): (r: Target)
    ensures r.Target? ==> && arguments == r.idText + " " + r.text && ' ' !in r.idText
                          && Atoi(r.idText) == Some(r.id)
    ensures r.Target? ==> MinInt64 <= r.id <= MaxInt64
    ensures r.BadTarget? && ' ' !in arguments ==> r.message == NotEnoughArguments
    ensures r.BadTarget? && ' ' in arguments ==>
      r.message == "Wrong arguments: " + SplitOnce(arguments, ' ').0 + " isn't a number"
  {
    if arguments == "" then BadTarget(NotEnoughArguments)
    else
      match SplitOnce(arguments, ' ')
      case (_, None) => BadTarget(NotEnoughArguments)
      case (idText, Some(text)) =>
        match Atoi(idText)
        case None => BadTarget("Wrong arguments: " + idText + " isn't a number")
        case Some(id) => Target(idText, id, text)
  }

  /** The converse: a numeral, one space and a text always pass the check. */
  lemma ParseTargetAccepts(idText: string, text: string)
    requires Atoi(idText).Some?
    ensures ParseTarget(idText + " " + text) == Target(idText, Atoi(idText).value, text)
  {
    SplitAtFirst(idText, text, ' ');
  }

  /** An id printed with `%d` and a text form valid arguments. */
  lemma ParseTargetOfItoa(id: int, text: string)
    requires MinInt64 <= id <= MaxInt64
    ensures ParseTarget(Itoa(id) + " " + text) == Target(Itoa(id), id, text)
  {
    AtoiItoa(id);
    ParseTargetAccepts(Itoa(id), text);
  }

  /** `RunCommand`. */
  function RunCommand(cmd: Command, c: EntityCache): (r: Outcome)
    ensures cmd.name !in {"me", "contacts", "umsg", "cmsg", "help", "quit"} ==> r == Unknown
    ensures cmd.name in {"umsg", "cmsg"} && ParseTarget(cmd.arguments).BadTarget? ==>
      r == Error(ParseTarget(cmd.arguments).message)
    ensures cmd.name == "umsg" ==>
      (r.SendToUser? <==> ParseTarget(cmd.arguments).Target? && ToInt32(ParseTarget(cmd.arguments).id) in c.users)
    ensures cmd.name == "umsg" && r.SendToUser? ==>
      var u := c.users[ToInt32(ParseTarget(cmd.arguments).id)];
      r == SendToUser(u.id, u.accessHash, ParseTarget(cmd.arguments).text)
    ensures cmd.name == "umsg" && ParseTarget(cmd.arguments).Target? && r.NotFound? ==>
      r.id == ParseTarget(cmd.arguments).id
    ensures cmd.name == "cmsg" ==> (r.SendToChat? <==> ParseTarget(cmd.arguments).Target?)
    ensures cmd.name == "cmsg" && r.SendToChat? ==>
      r == SendToChat(ToInt32(ParseTarget(cmd.arguments).id), ParseTarget(cmd.arguments).text)
    ensures cmd.name == "umsg" && ParseTarget(cmd.arguments).Target?
            && ToInt32(ParseTarget(cmd.arguments).id) !in c.users ==>
      r == NotFound(ParseTarget(cmd.arguments).id)
    ensures cmd.name == "me" ==> r == Me
    ensures cmd.name == "contacts" ==> r == Contacts
    ensures cmd.name == "help" ==> r == Help
    ensures cmd.name == "quit" ==> r == Quit
    ensures r.SendToUser? ==> cmd.name == "umsg"
    ensures r.SendToChat? ==> cmd.name == "cmsg"
    ensures Sends(r) ==> cmd.name in {"umsg", "cmsg"}
  {
    if cmd.name == "me" then Me
    else if cmd.name == "contacts" then Contacts
    else if cmd.name == "umsg" then
      match ParseTarget(cmd.arguments)
      case BadTarget(message) => Error(message)
      case Target(_, id, text) =>
        var key := ToInt32(id);
        if key !in c.users then NotFound(id)
        else SendToUser(c.users[key].id, c.users[key].accessHash, text)
    else if cmd.name == "cmsg" then
      match ParseTarget(cmd.arguments)
      case BadTarget(message) => Error(message)
      case Target(_, id, text) => SendToChat(ToInt32(id), text)
    else if cmd.name == "help" then Help
    else if cmd.name == "quit" then Quit
    else Unknown
  }

  /** `cmsg` never consults the cache. */
  lemma ChatMessagesIgnoreCache(arguments: string, c: EntityCache, d: EntityCache)
    ensures RunCommand(Command("cmsg", arguments), c) == RunCommand(Command("cmsg", arguments), d)
  {
  }

  /** In a well-keyed cache, `umsg` sends to exactly the id it was given,
      truncated to 32 bits. */
  lemma UserMessagesGoToParsedId(arguments: string, c: EntityCache)
    requires WellKeyed(c)
    ensures var r := RunCommand(Command("umsg", arguments), c);
      r.SendToUser? ==> r.userId == ToInt32(ParseTarget(arguments).id)
  {
  }
}
