/** The command router: one input line is trimmed, a lone digit 0 to 5 picks
    a menu entry, and anything else is split on white space and its first
    word matched against the command vocabulary. Only `exit` (and menu entry
    0) ends the session. */
module Router {
  import opened Wrappers
  import opened Strings
  import opened Resolv
  import opened Watcher
  import opened Manager

  datatype Command =
    | Quit
    | SetDns(server: Option<string>)
    | AskCustom
    | RestoreCmd
    | StatusCmd
    | WatchCmd
    | Help
    | Menu
    | Unknown(word: string)

  /** `/^[0-5]$/`. */
  predicate IsMenuOrdinal(t: string) {
    |t| == 1 && '0' <= t[0] <= '5'
  }

  /** The first words the text-command switch knows. */
  const Vocabulary: set<string> := {"set", "restore", "status", "watch", "exit", "help", "--help", "-h", "menu", ""}

  /** The menu entry a lone digit selects. */
  function OrdinalCommand(d: char): Command {
    match d
    case '0' => Quit
    case '1' => SetDns(None)
    case '2' => AskCustom
    case '3' => RestoreCmd
    case '4' => StatusCmd
    case _ => WatchCmd
  }

  /** The text-command switch on the first word; `set` takes the first argument. */
  function WordCommand(command: string, args: seq<string>): Command {
    if command == "set" then SetDns(if |args| > 0 then Some(args[0]) else None)
    else if command == "restore" then RestoreCmd
    else if command == "status" then StatusCmd
    else if command == "watch" then WatchCmd
    else if command == "exit" then Quit
    else if command == "help" || command == "--help" || command == "-h" then Help
    else if command == "menu" || command == "" then Menu
    else Unknown(command)
  }

  /** The parse half of `processCommand`, on the trimmed line. What each
      command word means is stated by the lemmas after it, in terms of the
      first word of the line. */
  function ParseLine(t: string): (c: Command)
    requires Trimmed(t)
    ensures c.SetDns? && c.server.Some? ==> c.server.value != [] && NoSpace(c.server.value)
  {
    if IsMenuOrdinal(t) then OrdinalCommand(t[0])
    else
      var words := SplitWs(t);
      SplitTrimmedWords(t);
      WordCommand(words[0], words[1..])
  }

  /** `processCommand` trims its input before anything else. */
  function Parse(input: string): Command {
    ParseLine(Trim(input))
  }

  /** The session ends on menu entry 0 and on a line whose first word is
      `exit`, and on nothing else. */
  lemma ParseQuit(t: string)
    requires Trimmed(t)
    ensures ParseLine(t) == Quit <==> t == "0" || StartsWithWord(t, "exit")
  {
    if IsMenuOrdinal(t) {
      assert OrdinalCommand(t[0]) == Quit <==> t[0] == '0';
      assert t == "0" <==> t[0] == '0';
      assert !StartsWithWord(t, "exit");
    } else {
      var w := SplitWs(t)[0];
      assert WordCommand(w, SplitWs(t)[1..]) == Quit <==> w == "exit";
      FirstPieceIsFirstWord(t, "exit");
      assert t != "0";
    }
  }

  /** `set` and menu entry 1 set a nameserver; only a bare `set` or entry 1
      leaves it to the default. */
  lemma ParseSet(t: string)
    requires Trimmed(t)
    ensures ParseLine(t).SetDns? <==> t == "1" || StartsWithWord(t, "set")
    ensures ParseLine(t) == SetDns(None) <==> t == "1" || t == "set"
  {
    if IsMenuOrdinal(t) {
      assert OrdinalCommand(t[0]).SetDns? <==> t[0] == '1';
      assert OrdinalCommand(t[0]) == SetDns(None) <==> t[0] == '1';
      assert t == "1" <==> t[0] == '1';
      assert !StartsWithWord(t, "set");
    } else {
      var words := SplitWs(t);
      assert WordCommand(words[0], words[1..]).SetDns? <==> words[0] == "set";
      assert WordCommand(words[0], words[1..]) == SetDns(None) <==> words[0] == "set" && |words| == 1;
      FirstPieceIsFirstWord(t, "set");
      SplitSingle(t);
      if words[0] == "set" && |words| == 1 {
        assert |t| == 3;
      }
      assert t != "1";
    }
  }

  /** Menu entry 2 asks for a custom address; entry 3 and `restore` restore. */
  lemma ParseCustomRestore(t: string)
    requires Trimmed(t)
    ensures ParseLine(t) == AskCustom <==> t == "2"
    ensures ParseLine(t) == RestoreCmd <==> t == "3" || StartsWithWord(t, "restore")
  {
    if IsMenuOrdinal(t) {
      var d := t[0];
      assert t == [d];
      assert !StartsWithWord(t, "restore");
    } else {
      var w := SplitWs(t)[0];
      assert WordCommand(w, SplitWs(t)[1..]) != AskCustom;
      assert WordCommand(w, SplitWs(t)[1..]) == RestoreCmd <==> w == "restore";
      FirstPieceIsFirstWord(t, "restore");
      assert t != "2" && t != "3";
    }
  }

  /** Menu entry 4 and `status` show the status; entry 5 and `watch` watch. */
  lemma ParseStatusWatch(t: string)
    requires Trimmed(t)
    ensures ParseLine(t) == StatusCmd <==> t == "4" || StartsWithWord(t, "status")
    ensures ParseLine(t) == WatchCmd <==> t == "5" || StartsWithWord(t, "watch")
  {
    if IsMenuOrdinal(t) {
      var d := t[0];
      assert t == [d];
      assert !StartsWithWord(t, "status") && !StartsWithWord(t, "watch");
    } else {
      var w := SplitWs(t)[0];
      assert WordCommand(w, SplitWs(t)[1..]) == StatusCmd <==> w == "status";
      assert WordCommand(w, SplitWs(t)[1..]) == WatchCmd <==> w == "watch";
      FirstPieceIsFirstWord(t, "status");
      FirstPieceIsFirstWord(t, "watch");
      assert t != "4" && t != "5";
    }
  }

  /** Help, under each of its three spellings, changes nothing. */
  lemma ParseHelp(t: string)
    requires Trimmed(t)
    ensures ParseLine(t) == Help <==> StartsWithWord(t, "help") || StartsWithWord(t, "--help") || StartsWithWord(t, "-h")
  {
    if IsMenuOrdinal(t) {
      assert OrdinalCommand(t[0]) != Help;
    } else {
      var w := SplitWs(t)[0];
      assert WordCommand(w, SplitWs(t)[1..]) == Help <==> w == "help" || w == "--help" || w == "-h";
      FirstPieceIsFirstWord(t, "help");
      FirstPieceIsFirstWord(t, "--help");
      FirstPieceIsFirstWord(t, "-h");
    }
  }

  /** The menu is shown again for `menu` and for an empty line. */
  lemma ParseMenu(t: string)
    requires Trimmed(t)
    ensures ParseLine(t) == Menu <==> t == [] || StartsWithWord(t, "menu")
  {
    if IsMenuOrdinal(t) {
      assert OrdinalCommand(t[0]) != Menu;
    } else {
      var w := SplitWs(t)[0];
      assert WordCommand(w, SplitWs(t)[1..]) == Menu <==> w == "menu" || w == [];
      FirstPieceIsFirstWord(t, "menu");
      SplitFirstEmpty(t);
    }
  }

  /** Any other first word is reported as it was typed: it is the line's
      non-empty first word, outside the vocabulary, and the line is no menu digit. */
  lemma ParseUnknown(t: string)
    requires Trimmed(t)
    ensures ParseLine(t).Unknown? ==>
      !IsMenuOrdinal(t) && StartsWithWord(t, ParseLine(t).word) && ParseLine(t).word != [] && ParseLine(t).word !in Vocabulary
  {
    if !IsMenuOrdinal(t) {
      var w := SplitWs(t)[0];
      FirstPieceIsFirstWord(t, w);
      SplitFirstEmpty(t);
    }
  }

  /** `set <ip> ...` sets the first argument, whatever follows it. */
  lemma SetUsesFirstArgument(t: string, sep: string, x: string, rest: string)
    requires Trimmed(t) && t == "set" + sep + x + rest
    requires sep != [] && AllSpace(sep)
    requires x != [] && NoSpace(x)
    requires rest == [] || IsSpace(rest[0])
    ensures ParseLine(t) == SetDns(Some(x))
  {
    assert t == "set" + (sep + (x + rest));
    SplitSetLine(sep, x, rest);
    assert !IsMenuOrdinal(t);
  }

  /** The outcome of each file operation a command may perform, and the line
      typed at the custom-IP prompt. */
  datatype Env = Env(copyOk: bool, writeOk: bool, readOk: bool, answer: string, events: seq<WatchEvent>)

  /** What the user is shown after a command. */
  datatype Reply =
    | Goodbye
    | Applied(outcome: Outcome)
    | NoCustomIp
    | StatusShown(status: Option<Status>)
    | Watched(reports: seq<string>, failed: bool)
    | HelpShown
    | MenuShown
    | UnknownCommand(word: string)

  datatype Effect = Effect(state: State, reply: Reply, proceed: bool)

  /** The state-changing calls a parsed command makes: none, or one set or
      restore. The custom-IP prompt answer is trimmed, and an empty answer
      writes nothing. */
  function CommandOps(command: Command, env: Env): (ops: seq<Op>)
    ensures |ops| <= 1
    ensures ops == [] <==> !(command.SetDns? || command.RestoreCmd? || (command.AskCustom? && Trim(env.answer) != []))
  {
    match command
    case SetDns(server) => [SetOp(server, env.copyOk, env.writeOk)]
    case AskCustom => if Trim(env.answer) != [] then [SetOp(Some(Trim(env.answer)), env.copyOk, env.writeOk)] else []
    case RestoreCmd => [RestoreOp(env.copyOk)]
    case _ => []
  }

  /** The calls the line makes. */
  function OpsOf(input: string, env: Env): (ops: seq<Op>)
    ensures |ops| <= 1
  {
    CommandOps(Parse(input), env)
  }

  /** The switch of `processCommand` on a parsed command: the next state,
      what is shown, and whether the session goes on. */
  function Effects(s: State, command: Command, env: Env): (e: Effect)
    ensures e.proceed <==> command != Quit
    ensures e.state == Run(s, CommandOps(command, env))
    ensures !(command.SetDns? || command.AskCustom? || command.RestoreCmd?) ==> e.state == s
    ensures command == AskCustom && Trim(env.answer) == [] ==> e == Effect(s, NoCustomIp, true)
    ensures command.Unknown? ==> e == Effect(s, UnknownCommand(command.word), true)
  {
    match command
    case Quit => Effect(s, Goodbye, false)
    case SetDns(server) =>
      var r := Set(s, server, env.copyOk, env.writeOk);
      Effect(r.state, Applied(r.outcome), true)
    case AskCustom =>
      var ip := Trim(env.answer);
      if ip != [] then
        var r := Set(s, Some(ip), env.copyOk, env.writeOk);
        Effect(r.state, Applied(r.outcome), true)
      else Effect(s, NoCustomIp, true)
    case RestoreCmd =>
      var r := Restore(s, env.copyOk);
      Effect(r.state, Applied(r.outcome), true)
    case StatusCmd => Effect(s, StatusShown(if env.readOk then Some(StatusOf(s)) else None), true)
    case WatchCmd =>
      if env.readOk then
        var scan := Fold(s.live, env.events);
        Effect(s, Watched(scan.reports, scan.failed), true)
      else Effect(s, Watched([], true), true)
    case Help => Effect(s, HelpShown, true)
    case Menu => Effect(s, MenuShown, true)
    case Unknown(w) => Effect(s, UnknownCommand(w), true)
  }

  /** `processCommand` as a function of the state: the switch on the parsed line. */
  function Dispatch(s: State, input: string, env: Env): (e: Effect)
    ensures e.proceed <==> Parse(input) != Quit
    ensures e.state == Run(s, OpsOf(input, env))
    ensures !(Parse(input).SetDns? || Parse(input).AskCustom? || Parse(input).RestoreCmd?) ==> e.state == s
    ensures Parse(input) == AskCustom && Trim(env.answer) == [] ==> e == Effect(s, NoCustomIp, true)
    ensures Parse(input).Unknown? ==> e == Effect(s, UnknownCommand(Parse(input).word), true)
  {
    Effects(s, Parse(input), env)
  }

  /** The switch of `processCommand` on the live manager: each command goes
      through the manager's methods or `Watch`. */
  method Perform(m: DnsManager, command: Command, env: Env) returns (proceed: bool, reply: Reply)
    modifies m
    ensures Effect(m.State(), reply, proceed) == Effects(old(m.State()), command, env)
  {
    proceed := true;
    match command
    case Quit =>
      proceed, reply := false, Goodbye;
    case SetDns(server) =>
      var outcome := m.ModifyDns(server, env.copyOk, env.writeOk);
      reply := Applied(outcome);
    case AskCustom =>
      var ip := Trim(env.answer);
      if ip != [] {
        var outcome := m.ModifyDns(Some(ip), env.copyOk, env.writeOk);
        reply := Applied(outcome);
      } else {
        reply := NoCustomIp;
      }
    case RestoreCmd =>
      var outcome := m.RestoreOriginal(env.copyOk);
      reply := Applied(outcome);
    case StatusCmd =>
      var status := m.ShowStatus(env.readOk);
      reply := StatusShown(status);
    case WatchCmd =>
      if env.readOk {
        var reports, last, failed := Watch(m.live, env.events);
        reply := Watched(reports, failed);
      } else {
        reply := Watched([], true);
      }
    case Help =>
      reply := HelpShown;
    case Menu =>
      reply := MenuShown;
    case Unknown(w) =>
      reply := UnknownCommand(w);
  }

  /** `processCommand` on the live manager: parse, then switch. */
  method ProcessCommand(m: DnsManager, input: string, env: Env) returns (proceed: bool, reply: Reply)
    modifies m
    ensures Effect(m.State(), reply, proceed) == Dispatch(old(m.State()), input, env)
  {
    proceed, reply := Perform(m, Parse(input), env);
  }

  /** One line typed at the prompt, with the outcomes its file operations meet. */
  datatype Line = Line(input: string, env: Env)

  /** The interactive loop: lines are processed in order until one ends the session. */
  function Session(s: State, lines: seq<Line>): State
    decreases |lines|
  {
    if lines == [] then s
    else
      var e := Dispatch(s, lines[0].input, lines[0].env);
      if e.proceed then Session(e.state, lines[1..]) else e.state
  }

  /** The state-changing calls a session makes, in order. */
  function SessionOps(lines: seq<Line>): seq<Op>
    decreases |lines|
  {
    if lines == [] then []
    else if Parse(lines[0].input) == Quit then []
    else OpsOf(lines[0].input, lines[0].env) + SessionOps(lines[1..])
  }

  /** A session is the run of the calls its lines make. */
  lemma {:induction false} SessionIsRun(s: State, lines: seq<Line>)
    ensures Session(s, lines) == Run(s, SessionOps(lines))
    decreases |lines|
  {
    if lines != [] {
      var e := Dispatch(s, lines[0].input, lines[0].env);
      if e.proceed {
        SessionIsRun(e.state, lines[1..]);
        RunAppend(s, OpsOf(lines[0].input, lines[0].env), SessionOps(lines[1..]));
      }
    }
  }

  /** In a session that starts with no backup and original content `o`, a
      restore command that succeeds brings back exactly `o`. */
  lemma RestoreAfterSession(o: string, root: bool, lines: seq<Line>, input: string, env: Env)
    requires Parse(input) == RestoreCmd
    requires Dispatch(Session(State(o, None, false, root), lines), input, env).reply == Applied(Done)
    ensures Dispatch(Session(State(o, None, false, root), lines), input, env).state.live == o
  {
    SessionIsRun(State(o, None, false, root), lines);
    RunTracks(State(o, None, false, root), SessionOps(lines), o);
  }

  /** A backup that exists when a session starts is there, unchanged, when it ends. */
  lemma SessionKeepsBackup(s: State, lines: seq<Line>, b: string)
    requires s.backup == Some(b)
    ensures Session(s, lines).backup == Some(b)
  {
    SessionIsRun(s, lines);
    RunKeepsBackup(s, SessionOps(lines), b);
  }

  /** Without root a whole session changes nothing. */
  lemma SessionWithoutRoot(s: State, lines: seq<Line>)
    requires !s.isRoot
    ensures Session(s, lines) == s
  {
    SessionIsRun(s, lines);
    RunWithoutRoot(s, SessionOps(lines));
  }

  /** From a fresh root session with no backup and original content `o`:
      `set 9.9.9.9` writes the generated body and backs up `o`, `status` then
      reports the file as tool-written with a backup, and `restore` brings
      back `o` and clears the flag. */
  lemma SetStatusRestore(o: string, env: Env)
    requires env.copyOk && env.writeOk && env.readOk
    ensures var s0 := State(o, None, false, true);
      var e1 := Dispatch(s0, "set 9.9.9.9", env);
      var e2 := Dispatch(e1.state, "status", env);
      var e3 := Dispatch(e2.state, "restore", env);
      e1.state == State(Body("9.9.9.9"), Some(o), true, true) &&
      e2.state == e1.state && e2.reply.StatusShown? && e2.reply.status.Some? &&
      e2.reply.status.value.modified && e2.reply.status.value.backupExists &&
      e3.state == State(o, Some(o), false, true) && e3.reply == Applied(Done)
  {
    var s0 := State(o, None, false, true);
    ParseSetNine();
    ParseStatusWord();
    ParseRestoreWord();
    var s1 := Set(s0, Some("9.9.9.9"), true, true).state;
    StatusAfterSet(s0, Some("9.9.9.9"), true, true);
    assert Dispatch(s0, "set 9.9.9.9", env).state == s1;
    assert Dispatch(s1, "status", env) == Effect(s1, StatusShown(Some(StatusOf(s1))), true);
  }

  /** The line of the scenario above, parsed. */
  lemma ParseSetNine()
    ensures Parse("set 9.9.9.9") == SetDns(Some("9.9.9.9"))
  {
    var l := "set 9.9.9.9";
    assert Trimmed(l);
    assert l == "set" + " " + "9.9.9.9" + "";
    SetUsesFirstArgument(l, " ", "9.9.9.9", "");
  }

  /** `status` alone is the status command. */
  lemma ParseStatusWord()
    ensures Parse("status") == StatusCmd
  {
    assert Trimmed("status") && StartsWithWord("status", "status");
    ParseStatusWatch("status");
  }

  /** `restore` alone is the restore command. */
  lemma ParseRestoreWord()
    ensures Parse("restore") == RestoreCmd
  {
    assert Trimmed("restore") && StartsWithWord("restore", "restore");
    ParseCustomRestore("restore");
  }
}
