/** The command side of the chat client: the registry that maps a command
    name to its handler, the Login handler's choice of notice, and the Help
    handler's two-pass listing of the registry. */
module Commands {

  datatype Option<T> = None | Some(value: T)

  /** The handlers that implement ICommand. */
  datatype Command = Login | Help

  datatype ChatRoom = ChatRoom(cid: int, cname: string, historyMessages: seq<string>)

  /** A decoded login reply; `joinedChatRoom` is None where the array is null. */
  datatype LoginResponse = LoginResponse(success: bool, uid: int, joinedChatRoom: Option<seq<ChatRoom>>)

  /** A parsed line: the command name and its positional parameters. */
  datatype InputCommand = InputCommand(command: string, parameters: seq<string>)

  /** What the client writes to the console, one tag per notice. */
  datatype Out =
    | CmdWarn            // a line that does not start with '/'
    | CmdNotExist        // an unregistered command name
    | CmdList            // the list of commands that follows it
    | LoggedIn           // "you are now login ..."
    | RoomListing        // the joined rooms, when the array is not null
    | EmptyChatrooms     // no joined rooms (null array)
    | LoginFail          // the service refused the login
    | ListHeader         // "Complete command list:"
    | ListedName(name: string)   // "<name> | " in Help's first pass
    | DetailsHeader      // "each command details as follows:"
    | DetailName(name: string)   // "<name>:" in Help's second pass
    | Description(cmd: Command)  // the handler's PrintDescription text
    | IOErrorMessage     // the message of a caught IOException

  /** The exceptions that end the program: none of them is an IOException,
      so none is caught by the input loop. */
  datatype Fault =
    | NullLine           // ReadLine returned null at end of input
    | EmptyFirstToken    // words[0][0] on an empty first token
    | MissingUserName    // Parameters[0] of a login without parameters
    | NullWords          // the loop test words[0] after a caught IOException

  datatype Result<T> = Ok(value: T) | Err(fault: Fault)

  predicate Distinct(keys: seq<string>) {
    forall i, j :: 0 <= i < j < |keys| ==> keys[i] != keys[j]
  }

  /** Dictionary<string, ICommand>: its keys in insertion order (the
      enumeration order of a dictionary nothing is removed from) and the
      handler stored under each key. */
  class Registry {
    var keys: seq<string>
    var handlers: map<string, Command>

    ghost predicate Valid()
      reads this
    {
      Distinct(keys) && (forall k :: k in handlers <==> k in keys)
    }

    constructor ()
      ensures Valid() && keys == [] && handlers == map[]
    {
      keys := [];
      handlers := map[];
    }

    /** Dictionary.Add: `added` is false where Add throws because the key is
        already present, and then nothing changes. */
    method Add(name: string, cmd: Command) returns (added: bool)
      requires Valid()
      modifies this
      ensures Valid()
      ensures added <==> name !in old(handlers)
      ensures added ==> keys == old(keys) + [name] && handlers == old(handlers)[name := cmd]
      ensures !added ==> keys == old(keys) && handlers == old(handlers)
    {
      added := name !in handlers;
      if added {
        keys := keys + [name];
        handlers := handlers[name := cmd];
      }
    }

    predicate ContainsKey(name: string)
      reads this
      requires Valid()
      ensures ContainsKey(name) <==> name in keys
    {
      name in handlers
    }
  }

  /** The notices of a login, chosen from the decoded reply. A non-null but
      empty room array is listed, not reported as "no rooms". */
  function LoginNotices(resp: LoginResponse): (notices: seq<Out>)
    ensures |notices| == if resp.success then 2 else 1
    ensures notices[0] == if resp.success then LoggedIn else LoginFail
    ensures LoginFail in notices <==> !resp.success
    ensures LoggedIn in notices <==> resp.success
    ensures EmptyChatrooms in notices <==> resp.success && resp.joinedChatRoom.None?
    ensures RoomListing in notices <==> resp.success && resp.joinedChatRoom.Some?
  {
    if resp.success then
      if resp.joinedChatRoom.Some? then [LoggedIn, RoomListing] else [LoggedIn, EmptyChatrooms]
    else [LoginFail]
  }

  /** Login.ExecuteCommand: logs in the user named by the first parameter,
      which it reads without checking that there is one. `server` stands for
      the remote service and gives the decoded reply for a user name. */
  function ExecuteLogin(input: InputCommand, server: string -> LoginResponse): (r: Result<seq<Out>>)
    ensures r.Err? <==> input.parameters == []
    ensures r.Err? ==> r.fault == MissingUserName
  {
    if input.parameters == [] then Err(MissingUserName)
    else Ok(LoginNotices(server(input.parameters[0])))
  }

  /** Only the first parameter reaches the service: the rest are ignored. */
  lemma LoginUsesFirstParameterOnly(a: InputCommand, b: InputCommand, server: string -> LoginResponse)
    requires a.parameters != [] && b.parameters != []
    requires a.parameters[0] == b.parameters[0]
    ensures ExecuteLogin(a, server) == ExecuteLogin(b, server)
  {
  }

  /** Help's first pass: "<name> | " for each key, in order. */
  function NamePass(keys: seq<string>): (lines: seq<Out>)
    ensures |lines| == |keys|
    ensures forall i :: 0 <= i < |keys| ==> lines[i] == ListedName(keys[i])
  {
    if keys == [] then [] else [ListedName(keys[0])] + NamePass(keys[1..])
  }

  lemma {:induction false} NamePassAppend(keys: seq<string>, name: string)
    ensures NamePass(keys + [name]) == NamePass(keys) + [ListedName(name)]
  {
    if keys != [] {
      assert (keys + [name])[1..] == keys[1..] + [name];
      NamePassAppend(keys[1..], name);
    }
  }

  /** Help's second pass: "<name>:" and the handler's description, for each
      key, in order (see DetailPassEntries). */
  function DetailPass(keys: seq<string>, handlers: map<string, Command>): (lines: seq<Out>)
    requires forall k :: k in keys ==> k in handlers
    ensures |lines| == 2 * |keys|
  {
    if keys == [] then []
    else [DetailName(keys[0]), Description(handlers[keys[0]])] + DetailPass(keys[1..], handlers)
  }

  /** Entries 2i and 2i+1 of the second pass are key i's name and its
      handler's description. */
  lemma {:induction false} DetailPassEntries(keys: seq<string>, handlers: map<string, Command>)
    requires forall k :: k in keys ==> k in handlers
    ensures forall i :: 0 <= i < |keys| ==>
      DetailPass(keys, handlers)[2 * i] == DetailName(keys[i]) &&
      DetailPass(keys, handlers)[2 * i + 1] == Description(handlers[keys[i]])
  {
    if keys != [] {
      var rest := DetailPass(keys[1..], handlers);
      var lines := DetailPass(keys, handlers);
      DetailPassEntries(keys[1..], handlers);
      forall i | 1 <= i < |keys|
        ensures lines[2 * i] == DetailName(keys[i]) && lines[2 * i + 1] == Description(handlers[keys[i]])
      {
        assert lines[2 * i] == rest[2 * (i - 1)] && lines[2 * i + 1] == rest[2 * (i - 1) + 1];
        assert keys[i] == keys[1..][i - 1];
      }
    }
  }

  lemma {:induction false} DetailPassAppend(keys: seq<string>, name: string, handlers: map<string, Command>)
    requires forall k :: k in keys ==> k in handlers
    requires name in handlers
    ensures DetailPass(keys + [name], handlers) == DetailPass(keys, handlers) + [DetailName(name), Description(handlers[name])]
  {
    if keys != [] {
      assert (keys + [name])[1..] == keys[1..] + [name];
      DetailPassAppend(keys[1..], name, handlers);
    }
  }

  function HelpListing(keys: seq<string>, handlers: map<string, Command>): seq<Out>
    requires forall k :: k in keys ==> k in handlers
  {
    [ListHeader] + NamePass(keys) + [DetailsHeader] + DetailPass(keys, handlers)
  }

  /** The handler that lists the commands; `commands` is the very dictionary
      the input loop dispatches through. */
  class HelpCommand {
    var commands: Registry

    constructor (commands: Registry)
      ensures this.commands == commands
    {
      this.commands := commands;
    }

    /** Help.ExecuteCommand: the header, every name in the first pass, the
        second header, then every name with its description. The two passes
        are collected separately and written out in the same order. */
    method ExecuteCommand(input: InputCommand) returns (out: seq<Out>)
      requires commands.Valid()
      ensures out == HelpListing(commands.keys, commands.handlers)
    {
      var keys, handlers := commands.keys, commands.handlers;
      var names := [];
      for i := 0 to |keys|
        invariant names == NamePass(keys[..i])
      {
        NamePassAppend(keys[..i], keys[i]);
        assert keys[..i + 1] == keys[..i] + [keys[i]];
        names := names + [ListedName(keys[i])];
      }
      var details := [];
      for i := 0 to |keys|
        invariant details == DetailPass(keys[..i], handlers)
      {
        DetailPassAppend(keys[..i], keys[i], handlers);
        assert keys[..i + 1] == keys[..i] + [keys[i]];
        details := details + [DetailName(keys[i]), Description(handlers[keys[i]])];
      }
      assert keys[..|keys|] == keys;
      out := [ListHeader] + names + [DetailsHeader] + details;
    }
  }

  function Count(lines: seq<Out>, x: Out): nat {
    if lines == [] then 0 else (if lines[0] == x then 1 else 0) + Count(lines[1..], x)
  }

  lemma {:induction false} CountAppend(a: seq<Out>, b: seq<Out>, x: Out)
    ensures Count(a + b, x) == Count(a, x) + Count(b, x)
  {
    if a == [] {
      assert a + b == b;
    } else {
      assert (a + b)[1..] == a[1..] + b;
      CountAppend(a[1..], b, x);
    }
  }

  lemma {:induction false} NamePassCount(keys: seq<string>, name: string)
    requires Distinct(keys)
    ensures Count(NamePass(keys), ListedName(name)) == if name in keys then 1 else 0
  {
    if keys != [] {
      assert Distinct(keys[1..]);
      NamePassCount(keys[1..], name);
      assert keys == [keys[0]] + keys[1..];
      assert name in keys[1..] ==> name != keys[0];
      CountAppend([ListedName(keys[0])], NamePass(keys[1..]), ListedName(name));
    }
  }

  lemma {:induction false} DetailPassCount(keys: seq<string>, handlers: map<string, Command>, name: string)
    requires Distinct(keys)
    requires forall k :: k in keys ==> k in handlers
    ensures Count(DetailPass(keys, handlers), DetailName(name)) == if name in keys then 1 else 0
  {
    if keys != [] {
      assert Distinct(keys[1..]);
      DetailPassCount(keys[1..], handlers, name);
      assert keys == [keys[0]] + keys[1..];
      assert name in keys[1..] ==> name != keys[0];
      var head := [DetailName(keys[0]), Description(handlers[keys[0]])];
      CountAppend(head, DetailPass(keys[1..], handlers), DetailName(name));
      assert head[1..][1..] == [];
    }
  }

  lemma CountListing(keys: seq<string>, handlers: map<string, Command>, x: Out)
    requires forall k :: k in keys ==> k in handlers
    requires x != ListHeader && x != DetailsHeader
    ensures Count(HelpListing(keys, handlers), x) == Count(NamePass(keys), x) + Count(DetailPass(keys, handlers), x)
  {
    var names, details := NamePass(keys), DetailPass(keys, handlers);
    CountAppend([ListHeader], names, x);
    CountAppend([ListHeader] + names, [DetailsHeader], x);
    CountAppend([ListHeader] + names + [DetailsHeader], details, x);
  }

  /** Help names every registered command exactly once in each pass, and
      nothing else. */
  lemma HelpListsEachCommandOnce(r: Registry, name: string)
    requires r.Valid()
    ensures Count(HelpListing(r.keys, r.handlers), ListedName(name)) == if name in r.keys then 1 else 0
    ensures Count(HelpListing(r.keys, r.handlers), DetailName(name)) == if name in r.keys then 1 else 0
  {
    CountListing(r.keys, r.handlers, ListedName(name));
    CountListing(r.keys, r.handlers, DetailName(name));
    NamePassCount(r.keys, name);
    DetailPassCount(r.keys, r.handlers, name);
    NoDetailInNamePass(r.keys, name);
    NoNameInDetailPass(r.keys, r.handlers, name);
  }

  lemma {:induction false} NoDetailInNamePass(keys: seq<string>, name: string)
    ensures Count(NamePass(keys), DetailName(name)) == 0
  {
    if keys != [] {
      NoDetailInNamePass(keys[1..], name);
    }
  }

  lemma {:induction false} NoNameInDetailPass(keys: seq<string>, handlers: map<string, Command>, name: string)
    requires forall k :: k in keys ==> k in handlers
    ensures Count(DetailPass(keys, handlers), ListedName(name)) == 0
  {
    if keys != [] {
      NoNameInDetailPass(keys[1..], handlers, name);
      var head := [DetailName(keys[0]), Description(handlers[keys[0]])];
      CountAppend(head, DetailPass(keys[1..], handlers), ListedName(name));
      assert head[1..][1..] == [];
    }
  }
}
