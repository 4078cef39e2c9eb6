/** RenderScreen.Greeting: the read-split-dispatch loop of the chat client.
    The loop is a method over the sequence of what ReadLine gives back; the
    functions Step and Run state what each line does and what a whole
    session prints and how it ends. */
module Screen {
  import opened Tokenizer
  import opened Commands

  /** RenderScreen.MAX_PARAM: the size of the first parameters array. */
  const MaxParam: nat := 4

  /** The registry the loop builds before reading: login, then help. */
  const Keys: seq<string> := ["login", "help"]
  const Handlers: map<string, Command> := map["login" := Login, "help" := Help]

  /** What one call of ReadLine gives: a line, or an IOException. The end of
      the input (ReadLine returning null) is the end of the sequence. */
  datatype Read = Line(text: string) | ReadError

  /** How a typed line is understood, from its first token. */
  datatype Action =
    | BlankFirstToken                                // words[0] is "": words[0][0] throws
    | Warn                                           // words[0] does not start with '/'
    | Dispatch(name: string, params: seq<string>)    // a registered command
    | UnknownCmd(name: string, params: seq<string>)  // a name the registry lacks

  /** How the program ends: the user quit, or an exception left the loop. */
  datatype End = Quit | Crash(fault: Fault)

  /** After one line the loop goes on or it is over. */
  datatype Next = Continue | Halt(end: End)

  datatype StepResult = StepResult(out: seq<Out>, next: Next)

  /** The notices a run prints, how it ends, and how many reads it used
      (the final read at the end of the input is not counted). */
  datatype Transcript = Transcript(out: seq<Out>, end: End, lines: nat) {
    /** This transcript preceded by `lines'` reads that printed `out'`. */
    function After(out': seq<Out>, lines': nat): Transcript {
      Transcript(out' + out, end, lines' + lines)
    }
  }

  lemma AfterAfter(t: Transcript, a: seq<Out>, b: seq<Out>, k: nat, l: nat)
    ensures t.After(a, k).After(b, l) == t.After(b + a, l + k)
  {
  }

  lemma {:induction false} FirstTokenEmpty(line: string)
    ensures Split(line)[0] == "" <==> line == [] || IsWhiteSpace(line[0])
    ensures Split(line)[0] != "" ==> Split(line)[0][0] == line[0]
  {
    SplitHead(line);
  }

  /** The line's first token decides the branch; the name is that token
      without any of its slashes and the parameters are the other tokens. */
  function Classify(line: string, keys: seq<string>): (a: Action)
    ensures a.BlankFirstToken? <==> line == [] || IsWhiteSpace(line[0])
    ensures a.Warn? <==> line != [] && !IsWhiteSpace(line[0]) && line[0] != '/'
    ensures a.Dispatch? || a.UnknownCmd? <==> line != [] && line[0] == '/'
    ensures a.Dispatch? || a.UnknownCmd? ==>
      (a.Dispatch? <==> a.name in keys) && '/' !in a.name &&
      |a.params| == WhiteSpaceCount(line) &&
      forall k :: 0 <= k < |a.params| ==> NoWhiteSpace(a.params[k])
  {
    FirstTokenEmpty(line);
    var words := Split(line);
    if words[0] == "" then BlankFirstToken
    else if words[0][0] == '/' then
      var name := StripSlashes(words[0]);
      if name in keys then Dispatch(name, words[1..]) else UnknownCmd(name, words[1..])
    else Warn
  }

  /** A command typed as "/name p1 p2 ..." is read back as the first token
      with all its slashes dropped and exactly the other tokens as
      parameters; it is dispatched exactly when that name is registered. */
  lemma {:induction false} ClassifyTypedCommand(token: string, params: seq<string>, keys: seq<string>)
    requires token != [] && token[0] == '/' && NoWhiteSpace(token)
    requires forall k :: 0 <= k < |params| ==> NoWhiteSpace(params[k])
    ensures var name := StripSlashes(token);
      Classify(JoinSpaces([token] + params), keys) ==
        if name in keys then Dispatch(name, params) else UnknownCmd(name, params)
  {
    var words := [token] + params;
    assert forall k :: 1 <= k < |words| ==> words[k] == params[k - 1];
    SplitJoinSpaces(words);
    assert words[1..] == params;
  }

  /** For a name without slashes the round trip gives the name back. */
  lemma ClassifyRoundTrip(name: string, params: seq<string>, keys: seq<string>)
    requires NoWhiteSpace(name) && '/' !in name
    requires forall k :: 0 <= k < |params| ==> NoWhiteSpace(params[k])
    ensures Classify(JoinSpaces(["/" + name] + params), keys) ==
      if name in keys then Dispatch(name, params) else UnknownCmd(name, params)
  {
    var token := "/" + name;
    assert NoWhiteSpace(token) by {
      assert forall i :: 1 <= i < |token| ==> token[i] == name[i - 1];
    }
    ClassifyTypedCommand(token, params, keys);
    StripSlashesAppend("/", name);
    StripSlashesKeeps(name);
    assert StripSlashes("/") == [];
  }

  /** Nothing of a command line is dropped: its first token and the
      parameters, with the line's white-space characters put back between
      them, give the line back, and the name is that token without its
      slashes. */
  lemma ClassifyKeepsEveryToken(line: string, keys: seq<string>)
    ensures var a := Classify(line, keys); var token := line[..FirstWhiteSpace(line)];
      a.Dispatch? || a.UnknownCmd? ==>
        a.name == StripSlashes(token) && JoinWith([token] + a.params, Seps(line)) == line
  {
    var words := Split(line);
    SplitHead(line);
    SplitSeps(line);
    assert words == [words[0]] + words[1..];
  }

  /** The four-slot parameters array is resized to fit: a line may carry
      more than four parameters. */
  lemma ParametersAreNotCapped()
    ensures Classify("/login a b c d e", Keys) == Dispatch("login", ["a", "b", "c", "d", "e"])
  {
    var params := ["a", "b", "c", "d", "e"];
    assert forall k :: 0 <= k < |params| ==> NoWhiteSpace(params[k]);
    assert NoWhiteSpace("login");
    assert JoinSpaces(["/" + "login"] + params) == "/login a b c d e" by {
      var words := ["/" + "login"] + params;
      assert JoinSpaces(words[5..]) == "e";
      assert JoinSpaces(words[4..]) == "d e";
      assert JoinSpaces(words[3..]) == "c d e";
      assert JoinSpaces(words[2..]) == "b c d e";
      assert JoinSpaces(words[1..]) == "a b c d e";
    }
    ClassifyRoundTrip("login", params, Keys);
  }

  /** The loop test: the first token of the line is exactly "&". */
  predicate Quits(line: string) {
    Split(line)[0] == "&"
  }

  /** Only "&" alone or "&" followed by white space ends the loop: "&foo"
      and "foo&" do not. */
  lemma QuitsExactly(line: string)
    ensures Quits(line) <==> line == "&" || (|line| >= 2 && line[0] == '&' && IsWhiteSpace(line[1]))
  {
    SplitHead(line);
    var k := FirstWhiteSpace(line);
    if Quits(line) {
      assert line[..k] == "&";
      assert k == 1;
      assert line == "&" || IsWhiteSpace(line[1]);
    }
    if line == "&" {
      assert k == 1;
      assert line[..k] == line;
    }
    if |line| >= 2 && line[0] == '&' && IsWhiteSpace(line[1]) {
      assert FirstWhiteSpace(line[1..]) == 0;
      assert k == 1;
    }
  }

  /** The handler registered under a name, run on the parsed line. */
  function Execute(cmd: Command, invocation: InputCommand, server: string -> LoginResponse): (r: Result<seq<Out>>)
    ensures cmd == Help ==> r.Ok?
  {
    match cmd
    case Login => ExecuteLogin(invocation, server)
    case Help => Ok(HelpListing(Keys, Handlers))
  }

  /** What /help prints with the registry the loop builds: login, then help,
      in each of the two passes. */
  lemma HelpListsLoginThenHelp()
    ensures HelpListing(Keys, Handlers) ==
      [ListHeader, ListedName("login"), ListedName("help"), DetailsHeader,
       DetailName("login"), Description(Login), DetailName("help"), Description(Help)]
  {
  }

  /** The loop test after a line that raised nothing. */
  function LoopTest(line: string): (next: Next)
    ensures next == Continue || next == Halt(Quit)
  {
    if Quits(line) then Halt(Quit) else Continue
  }

  /** The body of the do-while loop and its test, for a line that was read. */
  function LineStep(text: string, server: string -> LoginResponse): (r: StepResult)
    ensures r.next != Halt(Crash(NullLine)) && r.next != Halt(Crash(NullWords))
    ensures r.next == Halt(Quit) <==> Quits(text)
    ensures r.next == Halt(Quit) ==> r.out == [CmdWarn]
    ensures Classify(text, Keys).UnknownCmd? ==> r == StepResult([CmdNotExist, CmdList], Continue)
  {
    FirstTokenEmpty(text);
    match Classify(text, Keys)
    case BlankFirstToken => StepResult([], Halt(Crash(EmptyFirstToken)))
    case Warn => StepResult([CmdWarn], LoopTest(text))
    case UnknownCmd(_, _) => StepResult([CmdNotExist, CmdList], LoopTest(text))
    case Dispatch(name, params) =>
      match Execute(Handlers[name], InputCommand(name, params), server)
      case Err(f) => StepResult([], Halt(Crash(f)))
      case Ok(out) => StepResult(out, LoopTest(text))
  }

  /** One pass through the loop: an IOException is caught and its message
      printed, and then the loop test faults on the null `words`. */
  function Step(read: Read, server: string -> LoginResponse): (r: StepResult)
    ensures r.next != Halt(Crash(NullLine))
    ensures r.next == Halt(Quit) <==> read.Line? && Quits(read.text)
  {
    match read
    case ReadError => StepResult([IOErrorMessage], Halt(Crash(NullWords)))
    case Line(text) => LineStep(text, server)
  }

  /** A whole session over the given reads: every line before the last one
      read lets the loop go on, and the last one ends it; if none ends it,
      the read at the end of the input does. */
  function Run(input: seq<Read>, server: string -> LoginResponse): (t: Transcript)
    ensures t.lines <= |input|
    ensures forall j :: 0 <= j < t.lines - 1 ==> Step(input[j], server).next == Continue
    ensures t.end == Crash(NullLine) <==>
      t.lines == |input| && forall j :: 0 <= j < |input| ==> Step(input[j], server).next == Continue
    ensures t.end != Crash(NullLine) ==> 1 <= t.lines && Step(input[t.lines - 1], server).next == Halt(t.end)
    decreases |input|
  {
    if input == [] then Transcript([], Crash(NullLine), 0)
    else
      var step := Step(input[0], server);
      if step.next == Continue then
        var rest := Run(input[1..], server);
        assert forall j :: 1 <= j < |input| ==> input[j] == input[1..][j - 1];
        rest.After(step.out, 1)
      else Transcript(step.out, step.next.end, 1)
  }

  lemma RunUnfold(input: seq<Read>, server: string -> LoginResponse)
    requires input != []
    ensures var step := Step(input[0], server);
      Run(input, server) == if step.next == Continue
        then Run(input[1..], server).After(step.out, 1)
        else Transcript(step.out, step.next.end, 1)
  {
  }

  /** Run from the k-th read on, one step unfolded. */
  lemma RunAt(input: seq<Read>, k: nat, server: string -> LoginResponse)
    requires k < |input|
    ensures var step := Step(input[k], server);
      Run(input[k..], server) == if step.next == Continue
        then Run(input[k + 1..], server).After(step.out, 1)
        else Transcript(step.out, step.next.end, 1)
  {
    RunUnfold(input[k..], server);
    assert input[k..][0] == input[k] && input[k..][1..] == input[k + 1..];
  }

  /** The first line that quits ends the session there. */
  lemma {:induction false} RunQuitsAtFirstQuit(input: seq<Read>, server: string -> LoginResponse, k: nat)
    requires k < |input| && input[k].Line? && Quits(input[k].text)
    requires forall j :: 0 <= j < k ==> Step(input[j], server).next == Continue
    ensures Run(input, server).end == Quit && Run(input, server).lines == k + 1
  {
  }

  /** Nothing is read after the line that ends the session. */
  lemma {:induction false} RunIgnoresLaterInput(input: seq<Read>, more: seq<Read>, server: string -> LoginResponse)
    requires Run(input, server).end != Crash(NullLine)
    ensures Run(input + more, server) == Run(input, server)
  {
    var step := Step(input[0], server);
    assert (input + more)[0] == input[0];
    if step.next == Continue {
      assert (input + more)[1..] == input[1..] + more;
      RunIgnoresLaterInput(input[1..], more, server);
    }
  }

  /** "/login <user>" asks the service about that user and prints its
      notices; the loop goes on. */
  lemma {:induction false} LoginLineStep(user: string, server: string -> LoginResponse)
    requires NoWhiteSpace(user)
    ensures LineStep("/login " + user, server) == StepResult(LoginNotices(server(user)), Continue)
  {
    assert NoWhiteSpace("login");
    assert JoinSpaces(["/" + "login"] + [user]) == "/login " + user;
    ClassifyRoundTrip("login", [user], Keys);
    QuitsExactly("/login " + user);
  }

  /** A line that does not start with '/' prints the warning and, unless it
      quits, lets the loop go on. */
  lemma WarnLineStep(text: string, server: string -> LoginResponse)
    requires text != [] && !IsWhiteSpace(text[0]) && text[0] != '/'
    ensures LineStep(text, server) == StepResult([CmdWarn], LoopTest(text))
  {
  }

  /** A short session: a login, a line without the '/' prefix, and "&".
      The last two lines print the warning, and the third one quits. */
  lemma {:induction false} LoginWarnQuitSession(user: string, text: string, server: string -> LoginResponse)
    requires NoWhiteSpace(user)
    requires text != [] && !IsWhiteSpace(text[0]) && text[0] != '/' && !Quits(text)
    ensures Run([Line("/login " + user), Line(text), Line("&")], server) ==
      Transcript(LoginNotices(server(user)) + [CmdWarn, CmdWarn], Quit, 3)
  {
    var input := [Line("/login " + user), Line(text), Line("&")];
    var notices := LoginNotices(server(user));
    assert Run(input[2..], server) == Transcript([CmdWarn], Quit, 1) by {
      WarnLineStep("&", server);
      QuitsExactly("&");
      assert input[2..] == [Line("&")];
    }
    assert Run(input[1..], server) == Transcript([CmdWarn, CmdWarn], Quit, 2) by {
      WarnLineStep(text, server);
      assert input[1..][0] == Line(text) && input[1..][1..] == input[2..];
    }
    assert Step(input[0], server) == StepResult(notices, Continue) by {
      LoginLineStep(user, server);
    }
  }

  /** A blank line, or one that starts with white space, ends the program
      with an exception instead of being skipped. */
  lemma BlankLineCrashes(text: string, server: string -> LoginResponse)
    requires text == [] || IsWhiteSpace(text[0])
    ensures Step(Line(text), server) == StepResult([], Halt(Crash(EmptyFirstToken)))
  {
  }

  function Min(a: nat, b: nat): nat {
    if a <= b then a else b
  }

  /** Array.Resize: the same array when the length does not change, else a
      new array holding the common prefix of the old one. */
  method Resize(a: array<string>, n: nat) returns (b: array<string>)
    ensures b.Length == n
    ensures n == a.Length ==> b == a
    ensures n != a.Length ==> fresh(b) && b[..Min(n, a.Length)] == a[..Min(n, a.Length)]
  {
    if n == a.Length {
      return a;
    }
    b := new string[n];
    var m := Min(n, a.Length);
    for i := 0 to m
      invariant b[..i] == a[..i]
    {
      b[i] := a[i];
    }
  }

  /** Array.Copy(src, srcIndex, dst, dstIndex, length). */
  method ArrayCopy(src: seq<string>, srcIndex: nat, dst: array<string>, dstIndex: nat, length: nat)
    requires srcIndex + length <= |src| && dstIndex + length <= dst.Length
    modifies dst
    ensures dst[..] == old(dst[..dstIndex]) + src[srcIndex..srcIndex + length] + old(dst[dstIndex + length..])
  {
    for i := 0 to length
      invariant dst[..dstIndex] == old(dst[..dstIndex])
      invariant dst[dstIndex..dstIndex + i] == src[srcIndex..srcIndex + i]
      invariant dst[dstIndex + length..] == old(dst[dstIndex + length..])
    {
      dst[dstIndex + i] := src[srcIndex + i];
    }
    assert dst[..] == dst[..dstIndex] + dst[dstIndex..dstIndex + length] + dst[dstIndex + length..];
  }

  /** The outcome of dispatching a command name with its parameters:
      the registered handler's result, or the two not-exist notices. */
  function Dispatched(name: string, params: seq<string>, server: string -> LoginResponse): Result<seq<Out>> {
    if name in Keys then Execute(Handlers[name], InputCommand(name, params), server)
    else Ok([CmdNotExist, CmdList])
  }

  /** The '/' branch of the try block: strip the name, copy the other tokens
      into the resized parameters array and run the handler registered under
      the name, or print the not-exist notices. No handler runs for an
      unknown name and the registry is not changed (it is not in the frame). */
  method DispatchCommand(words: seq<string>, commands: Registry, help: HelpCommand, parameters: array<string>,
                         server: string -> LoginResponse)
    returns (result: Result<seq<Out>>, resized: array<string>)
    requires |words| >= 1
    requires commands.Valid() && commands.keys == Keys && commands.handlers == Handlers
    requires help.commands == commands
    modifies parameters
    ensures resized == parameters || fresh(resized)
    ensures resized[..] == words[1..]
    ensures result == Dispatched(StripSlashes(words[0]), words[1..], server)
  {
    var name := StripSlashes(words[0]);
    resized := Resize(parameters, |words| - 1);
    ArrayCopy(words, 1, resized, 0, |words| - 1);
    assert resized[..] == words[1..];
    var invocation := InputCommand(name, resized[..]);
    if commands.ContainsKey(name) {
      match commands.handlers[name]
      case Login =>
        result := ExecuteLogin(invocation, server);
      case Help =>
        var listing := help.ExecuteCommand(invocation);
        result := Ok(listing);
    } else {
      result := Ok([CmdNotExist, CmdList]);
    }
  }

  lemma LineStepDispatched(text: string, server: string -> LoginResponse)
    requires Split(text)[0] != "" && Split(text)[0][0] == '/'
    ensures var d := Dispatched(StripSlashes(Split(text)[0]), Split(text)[1..], server);
      LineStep(text, server) == if d.Err? then StepResult([], Halt(Crash(d.fault))) else StepResult(d.value, LoopTest(text))
  {
  }

  /** The try block of the loop for a line that was read: split it, then
      take the '/' branch or print the warning. `fault` is the exception
      that escapes, if any. */
  method ExecuteLine(text: string, commands: Registry, help: HelpCommand, parameters: array<string>,
                     server: string -> LoginResponse)
    returns (words: seq<string>, printed: seq<Out>, fault: Option<Fault>, resized: array<string>)
    requires commands.Valid() && commands.keys == Keys && commands.handlers == Handlers
    requires help.commands == commands
    modifies parameters
    ensures resized == parameters || fresh(resized)
    ensures words == Split(text)
    ensures LineStep(text, server) ==
      if fault.Some? then StepResult(printed, Halt(Crash(fault.value))) else StepResult(printed, LoopTest(text))
  {
    resized := parameters;
    words := Split(text);
    FirstTokenEmpty(text);
    if words[0] == "" {
      return words, [], Some(EmptyFirstToken), resized;
    }
    if words[0][0] == '/' {
      var result;
      result, resized := DispatchCommand(words, commands, help, parameters, server);
      LineStepDispatched(text, server);
      if result.Err? {
        return words, [], Some(result.fault), resized;
      }
      printed := result.value;
    } else {
      printed := [CmdWarn];
    }
    fault := None;
  }

  /** One pass through the do-while loop: the try block, the IOException
      handler, and the loop test on `words`, which is null when ReadLine
      threw. */
  method LoopPass(read: Read, commands: Registry, help: HelpCommand, parameters: array<string>,
                  server: string -> LoginResponse)
    returns (printed: seq<Out>, next: Next, resized: array<string>)
    requires commands.Valid() && commands.keys == Keys && commands.handlers == Handlers
    requires help.commands == commands
    modifies parameters
    ensures resized == parameters || fresh(resized)
    ensures StepResult(printed, next) == Step(read, server)
  {
    var words: Option<seq<string>> := None;
    resized := parameters;
    if read.Line? {
      var w, fault;
      w, printed, fault, resized := ExecuteLine(read.text, commands, help, parameters, server);
      if fault.Some? {
        return printed, Halt(Crash(fault.value)), resized;
      }
      words := Some(w);
    } else {
      printed := [IOErrorMessage];
    }
    if words.None? {
      next := Halt(Crash(NullWords));
    } else if words.value[0] == "&" {
      next := Halt(Quit);
    } else {
      next := Continue;
    }
  }

  /** The registry: login first, then help, whose `commands` is the same
      dictionary, so that help lists itself too. Neither Add throws, as the
      two names differ. */
  method BuildRegistry() returns (commands: Registry, help: HelpCommand)
    ensures fresh(commands) && fresh(help)
    ensures commands.Valid() && commands.keys == Keys && commands.handlers == Handlers
    ensures help.commands == commands
  {
    commands := new Registry();
    var added := commands.Add("login", Login);
    help := new HelpCommand(commands);
    added := commands.Add("help", Help);
  }

  /** RenderScreen.Greeting after the banner: builds the registry, then
      reads, splits and dispatches lines until the first token of a line is
      "&" or an exception other than IOException leaves the loop. The
      registry is the same, with the same two entries, on every pass. */
  method Greeting(input: seq<Read>, server: string -> LoginResponse) returns (out: seq<Out>, end: End, lines: nat)
    ensures Transcript(out, end, lines) == Run(input, server)
  {
    var parameters := new string[MaxParam];
    var commands, help := BuildRegistry();
    out, end, lines := ReadLoop(input, commands, help, parameters, server);
  }

  /** The do-while loop of RenderScreen.Greeting, over the registry it built
      and the parameters array it allocated. */
  method ReadLoop(input: seq<Read>, commands: Registry, help: HelpCommand, parameters: array<string>,
                  server: string -> LoginResponse)
    returns (out: seq<Out>, end: End, lines: nat)
    requires commands.Valid() && commands.keys == Keys && commands.handlers == Handlers
    requires help.commands == commands
    modifies parameters
    ensures Transcript(out, end, lines) == Run(input, server)
  {
    var slots := parameters;
    out, lines := [], 0;
    while true
      invariant slots == parameters || fresh(slots)
      invariant lines <= |input|
      invariant Run(input, server) == Run(input[lines..], server).After(out, lines)
      decreases |input| - lines
    {
      if lines == |input| {
        // ReadLine gave null and inLines.Split() throws.
        end := Crash(NullLine);
        assert Run(input[lines..], server) == Transcript([], end, 0) by {
          assert input[lines..] == [];
        }
        assert out + [] == out;
        return;
      }
      var printed, next;
      printed, next, slots := LoopPass(input[lines], commands, help, slots, server);
      assert Run(input[lines..], server) == if next == Continue
          then Run(input[lines + 1..], server).After(printed, 1)
          else Transcript(printed, next.end, 1) by {
        RunAt(input, lines, server);
      }
      if next.Halt? {
        out, end, lines := out + printed, next.end, lines + 1;
        return;
      }
      AfterAfter(Run(input[lines + 1..], server), printed, out, 1, lines);
      out, lines := out + printed, lines + 1;
    }
  }
}
