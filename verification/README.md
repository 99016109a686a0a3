# Terminal Telegram client: update reconciler, renderer and command shell

This project models the core of a terminal Telegram client written in Go.
Every two seconds the client polls the server for changes (`processUpdates`). It
applies each `updates.getDifference` response to its sync cursor and its
user, chat and channel caches (`parseUpdate`, `parseUpdateDifference`). It
prints each new message as one line (`parseMessage`, `nickname`). It also
reads backslash commands from the terminal and validates them (`readCommand`,
`RunCommand`).

The repository holds two copies of this code:
- telegram.go, the current one.
- main.go, an older one. Its update-record loop does not copy Pts and
  Pts_count into the cursor, and its fatal errors go through `log.Fatal`
  (exit status 1) instead of `os.Exit(2)`.

The model covers both copies through `Reconciler.Variant` (`Current` is
telegram.go, `Legacy` is main.go).

Go behaviours the model writes out explicitly:
- **Zero values.** A comma-ok type assertion that fails yields a zero value.
  A non-user entry in a difference is therefore cached as the zero user
  under id 0, and a non-state object is installed as the zero cursor.
- **Panics.** `parseUpdate` dereferences the cursor without checking it for
  nil. The `updateEditChannelMessage` arm asserts its record to the wrong
  type. The model returns these panics as `Halted` outcomes; it does not
  exclude them with preconditions.
- **Integers.** `strconv.Atoi` is modelled on a 64-bit `int`, and the
  `int32(id)` conversion wraps around (`Base.ToInt32`).
- **Strings.** `strings.TrimSpace` uses the white-space set of
  `unicode.IsSpace`.

Modules, in dependency order:
- `Base`: Option, RPC result, Go integer widths.
- `Decimal`: `%d` and `strconv.Atoi`.
- `Text`: TrimSpace, SplitN with 2, Replace with 1, ToLower.
- `Entities`: users, chats, channels, `nickname`.
- `Cache`: last-write-wins map updates.
- `Render`: `parseMessage`.
- `Reconciler`: `parseUpdate`, `parseUpdateDifference`.
- `Driver`: `processUpdates`, `LoadContacts`.
- `Commands`: `readCommand`, `RunCommand`.
- `Scenarios`: worked examples.

## Model

| member | source | states |
|---|---|---|
| Base.FilterMap | telegram.go:295-297 | a loop that prints at most one line per item prints no more lines than items, and prints nothing exactly when no item yields a line |
| Base.FilterMapFrom | telegram.go:295-297 | every printed line is the line of some item |
| Base.FilterMapAppend | telegram.go:295-297 | running the loop over two lists one after the other prints the first list's lines and then the second's |
| Base.FilterMapEveryItem | telegram.go:295-297 | when every item yields a line, line `i` is the line of item `i` |
| Base.ToInt32 | telegram.go:447 | `int32(id)` keeps an id that fits in 32 bits and otherwise agrees with it modulo 2^32 |
| Decimal.NatDigits | utils.go:14 | decimal digits of a natural number are non-empty, all digits, with no leading zero |
| Decimal.NatDigitsRoundTrip | utils.go:14 | the value of the printed digits is the number printed |
| Decimal.Itoa | utils.go:14 | `%d` output is non-empty, starts with a minus exactly for negative numbers, and holds no space |
| Decimal.Atoi | telegram.go:443-446 | `strconv.Atoi` succeeds exactly on an optionally signed digit string whose value fits in 64 bits, and yields that value |
| Decimal.AtoiItoa | telegram.go:443 | every 64-bit integer printed with `%d` is read back by `strconv.Atoi` unchanged |
| Text.LeadingSpaces | telegram.go:38 | the longest all-white-space prefix is counted: it is all white space and the next character is not |
| Text.TrailingSpaces | telegram.go:38 | the same for the longest all-white-space suffix |
| Text.TrimSpace | telegram.go:38 | the trimmed line is a slice of the input with only white space cut off, neither end is white space, and a non-space first character survives |
| Text.TrailingSpacesOfPadded | telegram.go:38 | white space after a non-space character is exactly what `TrimSpace` cuts at the end |
| Text.TrimSpaceOfPadded | telegram.go:29-38 | a trimmed line followed by its newline trims back to itself |
| Text.SplitOnce | telegram.go:39-43 | `SplitN(s, " ", 2)` has a second part exactly when `s` holds the separator; the first part holds no separator, and the parts rejoin to `s` |
| Text.SplitAtFirst | telegram.go:39-43 | splitting `head + sep + tail`, where `head` has no separator, returns exactly `head` and `tail` |
| Text.RemoveFirst | telegram.go:40 | `Replace(s, "\\", "", 1)` leaves `s` alone when the character is absent, and otherwise drops exactly its first occurrence, keeping everything before and after it |
| Text.ToLower | telegram.go:40 | lower-casing keeps the length, maps each character through ASCII lower-casing, and leaves no capital |
| Text.ToLowerKeepsSpaces | telegram.go:40 | lower-casing neither creates nor removes a space |
| Entities.Nickname | utils.go:12-18 | a nickname starts with `<id> <first> `, ends with ` <last>`, and is four characters longer than its parts when it carries a handle, two when it does not |
| Entities.NicknameInsertsHandle | utils.go:13-17 | the handle form is the plain form with `@<username> ` inserted after the first name |
| Entities.NicknameIgnoresPhoneAndHash | utils.go:12-18 | two users that differ only in phone or access hash get the same nickname |
| Entities.NicknameLeadsWithId | utils.go:14 | the first space-separated token of a nickname is the id, and `strconv.Atoi` reads it back |
| Cache.LastWrite | telegram.go:274-293 | the value a run of map writes leaves under a key is absent exactly when no write hits the key, and otherwise comes from some write to it |
| Cache.LastWriteWins | telegram.go:274-280 | a write that no later write to the same key follows decides the key's value |
| Cache.Upsert | telegram.go:274-293 | after the writes, a written key holds its last write; an unwritten key keeps its entry or its absence |
| Cache.UpsertKeepsKeys | telegram.go:274-293 | cache writes never remove a key |
| Cache.UpsertIdempotent | telegram.go:274-293 | performing the same writes twice is performing them once |
| Cache.UpsertKeyed | telegram.go:279 | writes that store each entity under its own id keep the map keyed by id |
| Render.SenderName | telegram.go:222-229 | the sender column is the nickname of the cached sender; a sender missing from the cache shows as `0  `, never as the `<id> unknow user` placeholder |
| Render.Render | telegram.go:213-269 | empty and unknown messages print nothing; a message prints exactly when its peer type is known, as `<date> <id> <sender> to <nickname>: <text>` or `... in <title>(<id>): <text>` |
| Render.RenderAll | telegram.go:295-297 | at most one line per message, none exactly when no message renders, and every line is the line of some message |
| Render.RenderAllLineByLine | telegram.go:295-297 | when every message renders, line `i` is the line of message `i` |
| Render.RenderAllOne | telegram.go:295-297 | one message prints its own line, or nothing when it does not render |
| Render.RenderAllAppend | telegram.go:295-297 | the lines of two lists of messages are the lines of the first followed by those of the second |
| Render.RenderReadsOnlyItsPeers | telegram.go:222-260 | a line depends only on the cache entries of its sender and its destination |
| Render.MissingEntitiesRenderAsZero | telegram.go:224-251 | a missing sender and a missing chat render as `0  ` and as `(0)` with an empty title |
| Reconciler.PickUser | telegram.go:274-280 | a user entry is written under its id; any other entry writes the zero user under id 0 |
| Reconciler.Absorb | telegram.go:272-293 | absorbing a response's entities never removes a cached key |
| Reconciler.AbsorbKeepsWellKeyed | telegram.go:274-293 | absorbing keeps every cached entity under its own id |
| Reconciler.WrongTypeLines | telegram.go:282-293 | every printed line is `Wrong type: <type>` for some chat entry of another type, there are no more lines than entries, and there is a line exactly when such an entry exists |
| Reconciler.WrongTypeLinesOne | telegram.go:282-293 | one chat entry prints `Wrong type: <type>` exactly when it is neither a chat nor a channel, and nothing otherwise |
| Reconciler.WrongTypeLinesAppend | telegram.go:282-293 | the lines of two lists of chat entries are the lines of the first followed by those of the second |
| Reconciler.LastCounters | telegram.go:299-321 | the counters copied into the cursor come from the last message-bearing record, or from none when no record bears a message |
| Reconciler.ProcessRecords | telegram.go:299-326 | the record loop completes exactly when no `updateEditChannelMessage` occurs, and prints the messages of the message-bearing records up to the first one |
| Reconciler.ProcessRecordsCursor | telegram.go:299-321 | a completed record loop keeps Qts, Date and Seq. It leaves the cursor alone in the main.go copy. In telegram.go it ends with the Pts and Pts_count of the last message-bearing record, or unchanged when there is none |
| Reconciler.ApplyPayload | telegram.go:272-327 | a difference prints its wrong-type lines, then its new messages, then its record messages, all rendered against the updated cache. It panics exactly on an `updateEditChannelMessage`, and otherwise installs the embedded state with the record counters applied |
| Reconciler.ApplyUpdate | telegram.go:330-350 | `parseUpdate` per response type. Empty changes only Date and Seq. Too-long changes only Pts; both panic on a missing cursor. A difference or slice installs its embedded state and absorbs its entities; it panics exactly when it holds an `updateEditChannelMessage`. Any other response changes nothing |
| Reconciler.VariantsDifferInCountersOnly | main.go:379-397 | the main.go record loop, which copies no counters, prints the same lines, stops at the same record and fills the cache alike. Its cursor differs from telegram.go's in Pts and Unread_count only, and not at all when no record bears a message or the response is not a difference |
| Reconciler.AbsorbIdempotent | telegram.go:272-293 | absorbing the same response twice is absorbing it once |
| Reconciler.LastUserEntryWins | telegram.go:274-280 | the last user entry for an id decides the cached user; a non-user entry stores the zero user under id 0 |
| Reconciler.LastChatEntryWins | telegram.go:282-293 | the last chat entry for an id decides the cached chat, the last channel entry the cached channel |
| Reconciler.UntouchedKeysKept | telegram.go:272-293 | a key no entry writes keeps its cached entry, or stays absent |
| Reconciler.ApplyKeepsWellKeyed | telegram.go:330-350 | applying a response keeps every cached entity under its own id |
| Reconciler.ApplyIdempotent | telegram.go:330-350 | applying the same response twice leaves the same session as applying it once, and prints the same lines |
| Reconciler.DifferenceForgetsOldCursor | telegram.go:336-345 | a difference or slice yields the same result whatever the cursor was before |
| Driver.FatalExitCode | telegram.go:358-369 | a failed state fetch ends the process with a non-zero status: exactly 2 from `os.Exit(2)` in telegram.go, exactly 1 from `log.Fatal` in the main.go copy |
| Driver.Poll | telegram.go:353-383 | a disconnected tick does nothing. Without a cursor it issues one state request and installs the state, or exits on an error or a wrong type. With a cursor it issues one difference request built from Pts, Unread_count, Date and Qts, ignores an error and applies the response |
| Driver.PollKeepsCursor | telegram.go:353-383 | polling never reaches the nil-cursor panic of `parseUpdate`, and a connected client that keeps running holds a cursor after every tick |
| Driver.LoadContacts | telegram.go:118-135 | an RPC error or a wrong reply type is returned as an error. Otherwise the user cache is the old one with the contact users written in order under their ids, no key is lost, and chats and channels are untouched |
| Driver.LoadContactsLastEntryWins | telegram.go:128-132 | the last contact entry for an id decides the cached user |
| Driver.LoadContactsKeepsOthers | telegram.go:128-132 | an id no contact entry carries keeps its cached user, or stays absent |
| Driver.LoadContactsSkipsNonUsers | telegram.go:128-132 | a contact list without users changes nothing |
| Commands.ReadCommand | telegram.go:27-45 | a read error gives no command; a line gives a command exactly when it starts with a backslash, and the command name holds no space |
| Commands.SplitCommand | telegram.go:38-43 | the command name of a trimmed line holds no space |
| Commands.ReadCommandReassembles | telegram.go:34-44 | a backslash line always yields a command; its trimmed form is a backslash, a raw name that lower-cases to the command name, and then, when there are arguments, one space and the arguments |
| Commands.SplitCommandReassembles | telegram.go:38-43 | the same for an already trimmed line |
| Commands.ReadCommandOf | telegram.go:29-44 | the converse: a backslash, a space-free name and arguments after one space, followed by the newline, read as that name in lower case with exactly those arguments |
| Commands.SplitCommandOf | telegram.go:39-43 | a trimmed line made of a backslash, a space-free name and the arguments after one space splits into that name in lower case and exactly those arguments |
| Commands.NonCommandLinesIgnored | telegram.go:34-36 | a line that does not start with a backslash is no command |
| Commands.ReturnedError | telegram.go:425-479 | `me` and `contacts` return the error of their `CurrentUser` or `Contacts` call unchanged; a validation error returns its own message, an unknown command `Unknow command`; every other outcome returns nil |
| Commands.ParseTarget | telegram.go:436-446 | accepted arguments are an Atoi-valid id, one space and the text. Arguments with no space are rejected for lack of arguments, and a first word that is no number is rejected as `Wrong arguments: <word> isn't a number` |
| Commands.ParseTargetAccepts | telegram.go:439-446 | any numeral followed by one space and a text is accepted, with that id and that text |
| Commands.ParseTargetOfItoa | telegram.go:443 | an id printed with `%d`, a space and a text are accepted with that id |
| Commands.RunCommand | telegram.go:425-480 | an unknown name gives `Unknow command`, and a bad `umsg`/`cmsg` argument returns its error. `umsg` sends exactly when the truncated id is cached, to that user's id and access hash, and otherwise reports the id not found. `cmsg` sends to the truncated id whenever the arguments parse. Only `umsg` sends to a user and only `cmsg` to a chat; `me`, `contacts`, `help` and `quit` give their own outcomes |
| Commands.ChatMessagesIgnoreCache | telegram.go:456-469 | `cmsg` does not depend on the cache |
| Commands.UserMessagesGoToParsedId | telegram.go:447-454 | in a cache keyed by id, `umsg` sends to the parsed id truncated to 32 bits |
| Scenarios.AnnCached | telegram.go:274-280 | a response whose only user is Ann leaves an empty user cache holding exactly Ann under 7 |
| Scenarios.HelloLine | telegram.go:235-244 | Ann's message to herself prints as `<date> 1 7 Ann  to 7 Ann : hi` |
| Scenarios.FirstDifference | telegram.go:336-340 | from cursor (100, 5, 1000, 10), a difference carrying user 7 Ann and her message `hi` installs (105, 5, 1010, 11), caches Ann, and prints `<date> 1 7 Ann  to 7 Ann : hi` |
| Scenarios.TooLongAfterFirstDifference | telegram.go:346-348 | a difference-too-long with Pts 500 then gives the cursor (500, 5, 1010, 11) and nothing else |
| Scenarios.MessageToUnknownUser | telegram.go:447-453 | `umsg 42 <text>` with no user 42 cached reports 42 as not found, returns no error and sends nothing |
| Scenarios.UnknownCommand | telegram.go:475-477 | the command `foo` returns `Unknow command` and sends nothing |

## Left out

- Logging (`logger.Info`, `logger.LogStruct`, `log.Println`) has no effect the model could observe and is omitted. This includes the `Wrong user type` and `Can't find ... with id` log lines.
- Terminal output is modelled for the message lines of `parseMessage`, the `Wrong type:` lines of `parseUpdateDifference` and the `Can't find user with id: <id>` line of `RunCommand` (the `NotFound` outcome, telegram.go:449-450) only. The `User input:` prompt and the printed read error of `readCommand` (telegram.go:28, telegram.go:31) and the `Unknow command. Try \help to see all commands` line of `RunCommand` (telegram.go:476) are not modelled.
- Reconciler.WrongTypeLines: the `%T` text of a foreign chat entry is not computed; the entry carries its type name as a plain field, which the line prints.
- The `unknow user` placeholder in `parseMessage` is overwritten before use. It is modelled as written, and `Render.SenderName` states that a missing sender shows as `0  `, never as the placeholder.
- `formatDate` (RFC 822 formatting in the local time zone) is a parameter `fmtDate: Int32 -> string`.
- The RPCs (`updates.getState`, `updates.getDifference`, `contacts.getContacts`, `messages.sendMessage`) are parameters or outcomes, not calls. `RunCommand` names the message it would send, and the `parseUpdate` of the send result is not modelled.
- The `me`, `contacts`, `help` and `quit` commands are outcomes only. `CurrentUser`, `Contacts` (the contact table printer), `help`, `Stop` and `Disconnect` are I/O and are not part of this model. The error `CurrentUser` or `Contacts` returns is a parameter of `Commands.ReturnedError`.
- The `Run` loop with its timer, input and stop channels, the `Read` goroutine, signal handling, `Connect`, `Authorization`, `Registration`, `IsPhoneRegistered` and `main` are concurrency and I/O, and are left out.
- `Run` dereferences the nil command `readCommand` returns for a non-command line. That crash belongs to the loop, not to the reader, and is left out with the loop.
- Commands.ReadCommand: requires a successful read to hold at least one character. `ReadString('\n')` always returns the terminating newline when it reports no error, so `readCommand` never indexes an empty line.
- Text.ToLower: only ASCII letters are lower-cased; Go's `strings.ToLower` also maps non-ASCII letters.
- Strings are sequences of Unicode code points, not UTF-8 bytes. `input[0]` in the Go code reads a byte, which agrees for the ASCII backslash.
- Driver.FatalExitCode: states the exit status only. The error text printed by `log.Fatal` is left out with logging.
- A Go panic ends the process with status 2. The model stops at the `Panicked` outcome and does not model the status.
- Decimal.Itoa: states the sign, the absence of spaces and the round trip through `Atoi` (`Decimal.AtoiItoa`), not the digit string itself.
- Render.Render: the text of `%T` is not modelled. A message or peer of an unknown type carries its type name as a plain field.
- The cursor datatype has no Go pointer identity. Installing `&state` is modelled as replacing the cursor value.
