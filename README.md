# Chat client command loop — a Dafny model

This project models the command side of the C# chat client in
`client_csharp/Program.cs`. The client reads lines from the terminal. A line
whose first token starts with `/` names a command. Its other tokens are the
command's parameters. The command is looked up in a dictionary of handlers
(`login`, `help`) and run. Any other first token prints a warning. The loop
ends when the first token of a line is `&`.

The model has three modules:

- `Tokenizer` (`tokenizer.dfy`) covers the two string operations the loop
  applies to a line. `Split` is .NET `String.Split()` with no arguments: it
  splits on every `Char.IsWhiteSpace` character and keeps empty tokens.
  `StripSlashes` is `Replace("/", "")`.
- `Commands` (`commands.dfy`) holds the handler registry, a class over an
  ordered key sequence and a map. It also holds the Login handler's choice
  of notice, as functions, and the Help handler, a class whose two-pass
  listing is a method with loops proved against `HelpListing`.
- `Screen` (`screen.dfy`) holds `RenderScreen.Greeting`. The method `Greeting`
  runs the do-while loop over a sequence of reads, with the `parameters`
  array resized and copied in place. Its result is proved equal to `Run`, a
  function that states what a whole session prints and how it ends. `Step`
  states the same for one pass through the loop.

Console output is a sequence of notice tags (`Out`). The texts of
`msgToScreen` are not modelled, because its definition is commented out in
the source. The tags keep the names used at the call sites (`cmdList`, not
the commented key `cmdLsit`). An exception that escapes the loop ends the
session as `Crash(fault)`:

- `NullLine`: `ReadLine` returned null at the end of the input.
- `EmptyFirstToken`: the line is blank or starts with white space, so
  `words[0][0]` is out of range.
- `MissingUserName`: `/login` was typed with no parameter.
- `NullWords`: an `IOException` was caught and printed, and then the loop
  test `words[0]` ran on null.

Some behaviours of the code are easy to miss. The model follows the code:

- A blank line ends the program with an exception; it is not skipped.
- An unknown command prints the not-exist notice and the command-list
  notice. It does not run the Help handler.
- A line whose first token is `&` quits even if more tokens follow
  (`& foo`). A first token of `&foo` does not quit.
- A successful login whose room array is non-null but empty is listed. Only
  a null array gives the "no chat rooms" notice.
- No cap of four parameters is enforced. The four-slot array is resized to
  the number of tokens.
- No session state is kept.

## Model

| member | source | states |
|---|---|---|
| Tokenizer.Split | client_csharp/Program.cs:167 | A line splits into one token more than it has white-space characters, and no token contains white space |
| Tokenizer.SplitSeps | client_csharp/Program.cs:167 | For every line, putting its white-space characters back between the tokens, in order, rebuilds the line: the tokens are exactly the white-space-free stretches, whatever the separators are |
| Tokenizer.SplitJoinWith | client_csharp/Program.cs:167 | Conversely, white-space-free tokens joined by any white-space separators split back into the same tokens, and those separators are the line's white space |
| Tokenizer.SplitHead | client_csharp/Program.cs:167-168 | The first token is the text up to the first white-space character |
| Tokenizer.SplitJoinSpaces | client_csharp/Program.cs:167 | Splitting white-space-free tokens joined by single spaces gives the same tokens back |
| Tokenizer.JoinSpacesSplit | client_csharp/Program.cs:167 | For a line whose only white space is spaces, joining its tokens with spaces gives the line back, so no character is lost |
| Tokenizer.SplitKeepsEmptyTokens | client_csharp/Program.cs:167 | Two spaces in a row give an empty token: `/login  alice` splits into `/login`, `""` and `alice` |
| Tokenizer.StripSlashes | client_csharp/Program.cs:170 | The command name has no `/` and has the token's characters with every `/` removed (as a multiset) |
| Tokenizer.StripSlashesAppend | client_csharp/Program.cs:170 | Removing slashes works piecewise and keeps the order of the other characters |
| Tokenizer.StripSlashesKeeps | client_csharp/Program.cs:170 | A name without slashes is unchanged |
| Tokenizer.StripSlashesIdempotent | client_csharp/Program.cs:170 | Stripping twice is the same as stripping once |
| Tokenizer.StripSlashesInner | client_csharp/Program.cs:170 | Inner slashes go too: `/a/b` gives `ab` |
| Commands.Registry.constructor | client_csharp/Program.cs:155 | A new dictionary is empty and valid |
| Commands.Registry.Add | client_csharp/Program.cs:157-161 | Add appends a new key with its handler and keeps the keys distinct; on a duplicate key (where .NET throws) nothing changes |
| Commands.Registry.ContainsKey | client_csharp/Program.cs:175 | A name is contained exactly when it is among the registered keys |
| Commands.LoginNotices | client_csharp/Program.cs:111-120 | A refused login prints exactly one notice, LoginFail. A successful one prints exactly two: LoggedIn first, then EmptyChatrooms when the room array is null and RoomListing when it is not |
| Commands.ExecuteLogin | client_csharp/Program.cs:107-121 | Login faults (MissingUserName) exactly when there are no parameters |
| Commands.LoginUsesFirstParameterOnly | client_csharp/Program.cs:108 | Two invocations with the same first parameter have the same outcome: only Parameters[0] reaches the service |
| Commands.NamePass | client_csharp/Program.cs:132-134 | The first pass has one entry per key, and entry i names key i |
| Commands.NamePassAppend | client_csharp/Program.cs:132-134 | Each key adds its name at the end of the first pass |
| Commands.DetailPass | client_csharp/Program.cs:136-139 | The second pass has two entries per key |
| Commands.DetailPassEntries | client_csharp/Program.cs:136-139 | Entries 2i and 2i+1 of the second pass are key i's name and its handler's description |
| Commands.DetailPassAppend | client_csharp/Program.cs:136-139 | Each key adds its name and then its handler's description at the end of the second pass |
| Commands.HelpCommand.ExecuteCommand | client_csharp/Program.cs:130-140 | Help prints the header, every key in order, the second header, then every key with its handler's description, in order |
| Commands.CountAppend | client_csharp/Program.cs:130-140 | Occurrences in printed output add up over concatenation |
| Commands.NamePassCount | client_csharp/Program.cs:132-134 | With distinct keys the first pass names each registered command exactly once and no other name |
| Commands.DetailPassCount | client_csharp/Program.cs:136-139 | With distinct keys the second pass names each registered command exactly once and no other name |
| Commands.NoDetailInNamePass | client_csharp/Program.cs:132-134 | The first pass prints no detail lines |
| Commands.NoNameInDetailPass | client_csharp/Program.cs:136-139 | The second pass prints no first-pass names |
| Commands.CountListing | client_csharp/Program.cs:131-139 | A name entry in Help's output comes from one of the two passes |
| Commands.HelpListsEachCommandOnce | client_csharp/Program.cs:130-140 | For a valid registry, Help lists each registered command exactly once in each pass and never lists an unregistered name |
| Screen.Classify | client_csharp/Program.cs:167-183 | A blank line or one that starts with white space faults. A first character other than `/` warns. A `/` dispatches when the slash-free name is registered and is unknown otherwise. There is one parameter per white-space character and none contains white space |
| Screen.ClassifyTypedCommand | client_csharp/Program.cs:167-176 | A typed `/token p1 ... pn` gives the token without slashes as the name and exactly p1 ... pn as the parameters, dispatched exactly when the name is registered |
| Screen.ClassifyRoundTrip | client_csharp/Program.cs:167-176 | Typing `/name` and parameters gives back that name and those parameters |
| Screen.ClassifyKeepsEveryToken | client_csharp/Program.cs:167-173 | For every command line, the first token and the parameters, with the line's white-space characters put back between them, give the whole line back, and the name is that token without slashes |
| Screen.ParametersAreNotCapped | client_csharp/Program.cs:171-173 | `/login a b c d e` dispatches login with five parameters: the four-slot array is resized, not capped |
| Screen.QuitsExactly | client_csharp/Program.cs:188 | The loop test holds exactly for `&` alone or `&` followed by white space; `&foo` and `foo&` go on |
| Screen.HelpListsLoginThenHelp | client_csharp/Program.cs:155-161 | With the registry the loop builds, Help lists login then help in both passes |
| Screen.Execute | client_csharp/Program.cs:176 | The Help handler never faults |
| Screen.LoopTest | client_csharp/Program.cs:188 | After a line that raised nothing, the loop either goes on or quits |
| Screen.LineStep | client_csharp/Program.cs:164-188 | A read line quits exactly when its first token is `&`, and then it printed only the warning. An unknown command prints the two not-exist notices, runs no handler and goes on |
| Screen.Step | client_csharp/Program.cs:163-188 | One pass never ends with the end-of-input fault, and it quits exactly on a read line whose first token is `&` |
| Screen.Run | client_csharp/Program.cs:163-188 | A session reads no more lines than it is given. Every line before the last one read lets the loop go on, and the last one ends it with the session's end. The session ends at the end of the input exactly when every line lets the loop go on |
| Screen.RunQuitsAtFirstQuit | client_csharp/Program.cs:188 | A session given a quit line, with every line before it letting the loop go on, ends with Quit right after that line |
| Screen.RunIgnoresLaterInput | client_csharp/Program.cs:163-188 | Once a session has ended by quitting or by a fault, input after that point changes nothing |
| Screen.LoginLineStep | client_csharp/Program.cs:107-121 | `/login user` prints the notices for the service's reply about that user and goes on |
| Screen.WarnLineStep | client_csharp/Program.cs:181-183 | A line that does not start with `/` or white space prints only the warning |
| Screen.LoginWarnQuitSession | client_csharp/Program.cs:163-188 | `/login user`, a line without `/`, then `&`: login notices, two warnings, Quit after three lines |
| Screen.BlankLineCrashes | client_csharp/Program.cs:167-168 | A blank line, or one that starts with white space, ends the program with the EmptyFirstToken fault and prints nothing |
| Screen.Resize | client_csharp/Program.cs:171 | Array.Resize keeps the array when the length is unchanged. Otherwise it gives a fresh array of the new length holding the common prefix |
| Screen.ArrayCopy | client_csharp/Program.cs:172 | Array.Copy overwrites exactly the destination range with the source range and leaves the rest |
| Screen.DispatchCommand | client_csharp/Program.cs:169-180 | The parameters array ends up holding exactly the tokens after the first. The result is the registered handler's result or the two not-exist notices. The registry is outside the frame, so it is unchanged |
| Screen.ExecuteLine | client_csharp/Program.cs:165-183 | The try block for a read line prints what LineStep says and raises the fault LineStep says |
| Screen.LoopPass | client_csharp/Program.cs:163-188 | One pass of the loop (try block, IOException handler, loop test) prints and ends as Step says |
| Screen.BuildRegistry | client_csharp/Program.cs:155-161 | The registry holds login then help, and Help's dictionary is that same registry |
| Screen.ReadLoop | client_csharp/Program.cs:163-188 | The do-while loop, given the registry and the parameters array, prints, ends and reads as many lines as Run says. It may change only the parameters array (or fresh ones), so the registry keeps its two entries on every pass |
| Screen.Greeting | client_csharp/Program.cs:145-189 | Building the registry, allocating the four-slot array and running the loop prints, ends and reads as many lines as Run says |

## Left out

- `ChatAPI.Login` (HTTP POST, `Task.Result`, the `"-100"` failure body) is network I/O and is not modelled. The service is a parameter `server` from a user name to an already decoded `LoginResponse`. It is assumed stateless. Decoding failures, including the `"-100"` body, are not modelled. So in the model a login with a parameter never faults. In the program a failed POST returns `"-100"`, `DeserializeObject` at line 109 then throws, and that exception is not an `IOException`, so it ends the program.
- JSON serialisation and deserialisation (Newtonsoft) is a foreign library and is not modelled.
- The greeting banner (`Greet`), the debug prints of `ChatAPI.Login` and the uid debug line of `Login.ExecuteCommand` are console output only and are not modelled.
- The texts of `msgToScreen` are not modelled; each notice is a tag. The dictionary itself is commented out in the source.
- `JoinedChatRoom.ToString()` prints a .NET type name. It is the single `RoomListing` tag.
- The `User` struct and any Send command: the file never writes a user or a room set and has no Send handler.
- Dictionary enumeration order: `Registry` keeps keys in insertion order. .NET gives that order only for a dictionary from which nothing is removed, as here.
- Null strings: the slots that `Array.Resize` adds hold null in .NET and `""` in the model. `Array.Copy` overwrites every slot before any handler sees them.
- Aliasing of `InputCommand.Parameters`: the handler receives the array itself in the source and a copy of its contents in the model. No handler writes to it.
- Exception messages: an `IOException` prints its message, which is the single `IOErrorMessage` tag.
- Write-by-write timing of Help's output: the model collects the two passes and then appends them in order. The printed sequence is the same as the source's.
