/**
 * The `message` handler of src/bot.js: gatekeeping, the guild configuration, prefix
 * and command-name parsing, the inhibitor pass, argument validation and the handler
 * call, each emitting its effects in order.
 *
 * The stored guild configuration and the registry are inputs. The handler body is
 * abstract: it appears as one `Execute` effect, and `outcome` says whether it fails.
 */
module Bot {
  import opened Js
  import opened Platform
  import opened Utils
  import opened Inhibitors
  import opened Commands

  /** The part of a stored guild row the dispatcher reads. */
  datatype GuildConfig = GuildConfig(prefix: string)

  /** Whether the handler returns normally or throws (or, when async, rejects). */
  datatype HandlerOutcome = Completes | Fails

  const DmNotice: string := "This bot does not currently accept DMs"
  const DefaultsNotice: string :=
    "Current Guild settings not found, defaults were generated.\nIf you think this is wrong contact the bot developer"
  const ErrorReply: string := "There was an error trying to execute that command!"

  function UnrecognizedNotice(prefix: string): string {
    "Unrecognized command. Use `" + prefix + "help` to see available commands"
  }

  /** How far a message gets before a descriptor is involved. */
  datatype Resolution =
    | Finished(effects: seq<Effect>)
    | Invoke(name: string, args: seq<string>, command: Command)

  /** The text after the prefix, split at whitespace runs (`content.slice(prefix.length).split(/\s+/)`). */
  function Tokens(content: string, prefix: string): (r: seq<string>)
    requires StartsWith(content, prefix)
    ensures |r| >= 1
  {
    SplitWs(content[|prefix|..])
  }

  /** Gatekeeping, the guild configuration, the prefix and the name lookup. */
  function Resolve(message: Message, stored: Option<GuildConfig>, commands: map<string, Command>): Resolution {
    if message.author.isClientUser || message.author.isBot then Finished([])
    else if message.guild.None? then Finished([Send(DmNotice, DefaultOptions)])
    else if stored.None? then
      Finished([AddServer(message.guild.value.id, message.guild.value.name), Send(DefaultsNotice, DefaultOptions)])
    else
      var prefix := stored.value.prefix;
      if !StartsWith(message.content, prefix) then Finished([])
      else
        var tokens := Tokens(message.content, prefix);
        var name := Lower(tokens[0]);
        if name !in commands then Finished([Send(UnrecognizedNotice(prefix), DefaultOptions)])
        else Invoke(name, tokens[1..], commands[name])
  }

  /** What each inhibitor returns for the message, in list order. */
  function Results(inhibitors: seq<Inhibitor>, message: Message): seq<Inhibition> {
    seq(|inhibitors|, k requires 0 <= k < |inhibitors| => inhibitors[k](message))
  }

  /** A result that reading `.reason` makes throw, or that throws itself. */
  predicate Throwing(i: Inhibition) {
    i.NullResult? || i.Raises?
  }

  /** An object result whose `reason` and `response` are both truthy: its response is sent. */
  predicate Responding(i: Inhibition) {
    i.Detailed? && i.reason != "" && i.response != ""
  }

  /** The `forEach` over the inhibitor results: the sends it makes, then whether it threw. */
  datatype InhibitorRun = InhibitorRun(sends: seq<Effect>, threw: bool)

  function InhibitorEffects(results: seq<Inhibition>): (r: InhibitorRun)
    ensures |r.sends| <= |results|
    ensures forall e :: e in r.sends ==> e.Send? && e.options == DefaultOptions
    decreases |results|
  {
    if results == [] then InhibitorRun([], false)
    else if Throwing(results[0]) then InhibitorRun([], true)
    else
      var rest := InhibitorEffects(results[1..]);
      if Responding(results[0]) then InhibitorRun([Send(results[0].response, DefaultOptions)] + rest.sends, rest.threw)
      else rest
  }

  /**
   * The pass throws iff some result throws; it sends nothing when no result has both
   * a reason and a response, and every text it sends is the response of some object result.
   */
  lemma {:induction false} InhibitorEffectsMeaning(results: seq<Inhibition>)
    ensures InhibitorEffects(results).threw <==> exists k :: 0 <= k < |results| && Throwing(results[k])
    ensures (forall k :: 0 <= k < |results| ==> !Responding(results[k])) ==> InhibitorEffects(results).sends == []
    ensures forall e :: e in InhibitorEffects(results).sends ==>
      exists k :: 0 <= k < |results| && Responding(results[k]) && results[k].response == e.text
    decreases |results|
  {
    if results != [] && !Throwing(results[0]) {
      var tail := results[1..];
      InhibitorEffectsMeaning(tail);
      assert forall k :: 0 <= k < |tail| ==> tail[k] == results[k + 1];
      forall e | e in InhibitorEffects(results).sends
        ensures exists k :: 0 <= k < |results| && Responding(results[k]) && results[k].response == e.text
      {
        if e !in InhibitorEffects(tail).sends {
          assert Responding(results[0]) && results[0].response == e.text;
        } else {
          var j :| 0 <= j < |tail| && Responding(tail[j]) && tail[j].response == e.text;
          assert results[j + 1] == tail[j];
        }
      }
      if exists k :: 0 <= k < |results| && Throwing(results[k]) {
        var k :| 0 <= k < |results| && Throwing(results[k]);
        assert k > 0 && Throwing(tail[k - 1]);
      }
    }
  }

  /** Effects of one command invocation, from the inhibitor pass to the handler. */
  function RunCommand(command: Command, name: string, args: seq<string>, message: Message, engine: Engine,
                      outcome: HandlerOutcome): seq<Effect> {
    var inh := if command.inhibitors.Some? then InhibitorEffects(Results(command.inhibitors.value, message))
               else InhibitorRun([], false);
    if inh.threw then inh.sends + [Reply(ErrorReply)]
    else
      var verdict := Validation(args, command.arguments, engine);
      if verdict.Throws? then inh.sends + [Reply(ErrorReply)]
      else if command.arguments.Some? && verdict.Rejected? then inh.sends + [Send(verdict.message, DefaultOptions)]
      else inh.sends + [Execute(name, args)] + (if command.kind == Sync && outcome == Fails then [Reply(ErrorReply)] else [])
  }

  /** Every effect of handling one message, in order. */
  function Dispatch(message: Message, stored: Option<GuildConfig>, commands: map<string, Command>, engine: Engine,
                    outcome: HandlerOutcome): seq<Effect> {
    match Resolve(message, stored, commands)
    case Finished(effects) => effects
    case Invoke(name, args, command) => RunCommand(command, name, args, message, engine, outcome)
  }

  /**
   * The handler itself: early returns for each gate, the argument array split and
   * shifted, the inhibitors called one by one, then validation and the handler.
   */
  method OnMessage(message: Message, stored: Option<GuildConfig>, commands: map<string, Command>, engine: Engine,
                   outcome: HandlerOutcome) returns (effects: seq<Effect>)
    ensures effects == Dispatch(message, stored, commands, engine, outcome)
  {
    effects := [];
    if message.author.isClientUser {
      return;
    }
    if message.author.isBot {
      return;
    }
    if message.guild.None? {
      effects := effects + [Send(DmNotice, DefaultOptions)];
      return;
    }
    var guild := message.guild.value;
    if stored.None? {
      effects := effects + [AddServer(guild.id, guild.name)];
      effects := effects + [Send(DefaultsNotice, DefaultOptions)];
      return;
    }
    var prefix := stored.value.prefix;
    if !StartsWith(message.content, prefix) {
      return;
    }
    var args := SplitWs(message.content[|prefix|..]);
    var name := Lower(args[0]);
    args := args[1..];
    if name !in commands {
      effects := effects + [Send(UnrecognizedNotice(prefix), DefaultOptions)];
      return;
    }
    var command := commands[name];
    assert Resolve(message, stored, commands) == Invoke(name, args, command);
    effects := RunCommandSteps(command, name, args, message, engine, outcome);
  }

  /** The `forEach` over the inhibitors: each is called in turn; a throwing result ends the pass. */
  method RunInhibitors(inhibitors: seq<Inhibitor>, message: Message) returns (sends: seq<Effect>, threw: bool)
    ensures InhibitorRun(sends, threw) == InhibitorEffects(Results(inhibitors, message))
  {
    ghost var results := Results(inhibitors, message);
    sends := [];
    var i := 0;
    while i < |inhibitors|
      invariant 0 <= i <= |inhibitors|
      invariant InhibitorEffects(results) ==
        InhibitorRun(sends + InhibitorEffects(results[i..]).sends, InhibitorEffects(results[i..]).threw)
      decreases |inhibitors| - i
    {
      assert results[i..][1..] == results[i + 1..];
      var inhibition := inhibitors[i](message);
      if inhibition.NullResult? || inhibition.Raises? {
        return sends, true;
      }
      if inhibition.Detailed? && inhibition.reason != "" {
        if inhibition.response != "" {
          sends := sends + [Send(inhibition.response, DefaultOptions)];
        }
      }
      i := i + 1;
    }
    assert results[i..] == [];
    return sends, false;
  }

  /** The `try` block: inhibitors, validation, then the handler; the `catch` replies once. */
  method RunCommandSteps(command: Command, name: string, args: seq<string>, message: Message, engine: Engine,
                         outcome: HandlerOutcome) returns (effects: seq<Effect>)
    ensures effects == RunCommand(command, name, args, message, engine, outcome)
  {
    effects := [];
    if command.inhibitors.Some? {
      var sends, threw := RunInhibitors(command.inhibitors.value, message);
      effects := sends;
      if threw {
        effects := effects + [Reply(ErrorReply)];
        return;
      }
    }
    var verdict := ValidateArgs(args, command.arguments, engine);
    if verdict.Throws? {
      effects := effects + [Reply(ErrorReply)];
      return;
    }
    if command.arguments.Some? && verdict.Rejected? {
      effects := effects + [Send(verdict.message, DefaultOptions)];
      return;
    }
    effects := effects + [Execute(name, args)];
    if command.kind == Sync && outcome == Fails {
      effects := effects + [Reply(ErrorReply)];
    } else {
      assert effects + [] == effects;
    }
  }

  /** The sends of the inhibitor pass of `command` for `message`, and whether it threw. */
  function Pass(command: Command, message: Message): InhibitorRun {
    if command.inhibitors.Some? then InhibitorEffects(Results(command.inhibitors.value, message))
    else InhibitorRun([], false)
  }

  // ---- Properties of the dispatcher ----

  /** The bot's own messages and other bots' messages are ignored; a direct message gets only the DM notice. */
  lemma Gatekeeping(message: Message, stored: Option<GuildConfig>, commands: map<string, Command>, engine: Engine,
                    outcome: HandlerOutcome)
    ensures message.author.isClientUser || message.author.isBot ==>
      Dispatch(message, stored, commands, engine, outcome) == []
    ensures !message.author.isClientUser && !message.author.isBot && message.guild.None? ==>
      Dispatch(message, stored, commands, engine, outcome) == [Send(DmNotice, DefaultOptions)]
  {
  }

  /** Without a stored configuration the defaults are created and announced, and no command runs. */
  lemma MissingConfigurationCreatesDefaults(message: Message, commands: map<string, Command>, engine: Engine,
                                            outcome: HandlerOutcome)
    requires !message.author.isClientUser && !message.author.isBot && message.guild.Some?
    ensures Dispatch(message, None, commands, engine, outcome) ==
      [AddServer(message.guild.value.id, message.guild.value.name), Send(DefaultsNotice, DefaultOptions)]
  {
  }

  /** Content without the stored prefix has no effect at all. */
  lemma NoPrefixNoEffects(message: Message, config: GuildConfig, commands: map<string, Command>, engine: Engine,
                          outcome: HandlerOutcome)
    requires !message.author.isClientUser && !message.author.isBot && message.guild.Some?
    requires !StartsWith(message.content, config.prefix)
    ensures Dispatch(message, Some(config), commands, engine, outcome) == []
  {
  }

  /**
   * The text after the prefix is split at whitespace runs into at least one token
   * with no whitespace in it, rejoining the tokens collapses each run to one space;
   * the first token lower-cased is the name looked up, and the other tokens are the
   * arguments exactly as typed. An unregistered name gets only the help hint.
   */
  lemma Parsing(message: Message, config: GuildConfig, commands: map<string, Command>, engine: Engine,
                outcome: HandlerOutcome)
    requires !message.author.isClientUser && !message.author.isBot && message.guild.Some?
    requires StartsWith(message.content, config.prefix)
    ensures var tokens := Tokens(message.content, config.prefix);
      && |tokens| >= 1
      && (forall k :: 0 <= k < |tokens| ==> NoSpace(tokens[k]))
      && Join(tokens, " ") == Collapse(message.content[|config.prefix|..])
      && (Lower(tokens[0]) in commands ==>
            Resolve(message, Some(config), commands) == Invoke(Lower(tokens[0]), tokens[1..], commands[Lower(tokens[0])]))
      && (Lower(tokens[0]) !in commands ==>
            Dispatch(message, Some(config), commands, engine, outcome) ==
              [Send(UnrecognizedNotice(config.prefix), DefaultOptions)])
  {
    JoinSplitWs(message.content[|config.prefix|..]);
  }

  /**
   * Inhibitor results compose in list order: the sends of a concatenation are the
   * sends of the first part followed by those of the second, unless the first part throws.
   */
  lemma {:induction false} InhibitorEffectsAppend(a: seq<Inhibition>, b: seq<Inhibition>)
    requires forall k :: 0 <= k < |a| ==> !Throwing(a[k])
    ensures InhibitorEffects(a + b) ==
      InhibitorRun(InhibitorEffects(a).sends + InhibitorEffects(b).sends, InhibitorEffects(b).threw)
    decreases |a|
  {
    if a == [] {
      assert a + b == b;
    } else {
      var ab := a + b;
      assert ab[0] == a[0] && !Throwing(a[0]);
      assert ab[1..] == a[1..] + b;
      InhibitorEffectsAppend(a[1..], b);
      var rest := InhibitorEffects(a[1..]);
      if Responding(a[0]) {
        assert InhibitorEffects(a).sends == [Send(a[0].response, DefaultOptions)] + rest.sends;
      } else {
        assert InhibitorEffects(a).sends == rest.sends;
      }
    }
  }

  /** A single result sends its response iff both its reason and its response are non-empty. */
  lemma OneInhibitorResult(i: Inhibition)
    ensures InhibitorEffects([i]) ==
      if Throwing(i) then InhibitorRun([], true)
      else if Responding(i) then InhibitorRun([Send(i.response, DefaultOptions)], false)
      else InhibitorRun([], false)
  {
    assert [i][1..] == [];
  }

  /**
   * As written, no inhibitor result stops a command: unless a result throws, the
   * dispatcher goes on to validation and, when the arguments pass, runs the handler.
   */
  lemma InhibitorsNeverBlock(command: Command, name: string, args: seq<string>, message: Message, engine: Engine,
                             outcome: HandlerOutcome)
    requires !Pass(command, message).threw
    requires Validation(args, command.arguments, engine) == Accepted
    ensures RunCommand(command, name, args, message, engine, outcome) ==
      Pass(command, message).sends + [Execute(name, args)] +
      (if command.kind == Sync && outcome == Fails then [Reply(ErrorReply)] else [])
  {
  }

  /** A descriptor without `arguments` is never validated: its handler runs whatever the arguments. */
  lemma NoArgumentsNoValidation(command: Command, name: string, args: seq<string>, message: Message, engine: Engine,
                                outcome: HandlerOutcome)
    requires command.arguments.None? && !Pass(command, message).threw
    ensures Execute(name, args) in RunCommand(command, name, args, message, engine, outcome)
    ensures forall e :: e in RunCommand(command, name, args, message, engine, outcome) && e.Send? ==>
      e in Pass(command, message).sends
  {
  }

  /** A rejected argument list is answered with its message and the handler is skipped. */
  lemma RejectedArgumentsSkipHandler(command: Command, name: string, args: seq<string>, message: Message,
                                     engine: Engine, outcome: HandlerOutcome)
    requires command.arguments.Some? && !Pass(command, message).threw
    requires Validation(args, command.arguments, engine).Rejected?
    ensures RunCommand(command, name, args, message, engine, outcome) ==
      Pass(command, message).sends + [Send(Validation(args, command.arguments, engine).message, DefaultOptions)]
    ensures forall e :: e in RunCommand(command, name, args, message, engine, outcome) ==> !e.Execute? && !e.Reply?
  {
  }

  /**
   * A failing synchronous handler is followed by the one error reply; a failing
   * async handler's rejection is only logged, so nothing tells failure from success.
   */
  lemma HandlerFailures(command: Command, name: string, args: seq<string>, message: Message, engine: Engine)
    requires !Pass(command, message).threw
    requires Validation(args, command.arguments, engine) == Accepted
    ensures command.kind == Sync ==>
      RunCommand(command, name, args, message, engine, Fails) ==
        RunCommand(command, name, args, message, engine, Completes) + [Reply(ErrorReply)]
    ensures command.kind == Async ==>
      RunCommand(command, name, args, message, engine, Fails) == RunCommand(command, name, args, message, engine, Completes)
  {
  }

  /**
   * One invocation causes at most one error reply and at most one handler call, and
   * that call is to the given name with the given arguments.
   */
  lemma RunCommandShape(command: Command, name: string, args: seq<string>, message: Message, engine: Engine,
                        outcome: HandlerOutcome)
    ensures var effects := RunCommand(command, name, args, message, engine, outcome);
      && (forall i, j :: 0 <= i < j < |effects| ==> !(effects[i].Reply? && effects[j].Reply?))
      && (forall i, j :: 0 <= i < j < |effects| ==> !(effects[i].Execute? && effects[j].Execute?))
      && (forall e :: e in effects && e.Reply? ==> e.text == ErrorReply)
      && (forall e :: e in effects && e.Execute? ==> e == Execute(name, args))
  {
    var sends := Pass(command, message).sends;
    var effects := RunCommand(command, name, args, message, engine, outcome);
    var tail := effects[|sends|..];
    assert effects == sends + tail;
    assert tail == [Reply(ErrorReply)] || (tail[0].Send? && |tail| == 1) ||
           tail == [Execute(name, args)] || tail == [Execute(name, args), Reply(ErrorReply)];
    forall i | 0 <= i < |effects|
      ensures effects[i].Reply? || effects[i].Execute? ==> i >= |sends| && effects[i] == tail[i - |sends|]
    {
      if i < |sends| {
        assert effects[i] in sends;
      }
    }
  }

  /**
   * Whatever happens, a message causes at most one error reply and at most one
   * handler call, and that call is to the looked-up name with the parsed arguments.
   */
  lemma DispatchShape(message: Message, stored: Option<GuildConfig>, commands: map<string, Command>, engine: Engine,
                      outcome: HandlerOutcome)
    ensures var effects := Dispatch(message, stored, commands, engine, outcome);
      && (forall i, j :: 0 <= i < j < |effects| ==> !(effects[i].Reply? && effects[j].Reply?))
      && (forall i, j :: 0 <= i < j < |effects| ==> !(effects[i].Execute? && effects[j].Execute?))
      && (forall e :: e in effects && e.Reply? ==> e.text == ErrorReply)
      && (forall e :: e in effects && e.Execute? ==>
            var res := Resolve(message, stored, commands);
            res.Invoke? && e == Execute(res.name, res.args) && res.name in commands)
  {
    var res := Resolve(message, stored, commands);
    if res.Invoke? {
      RunCommandShape(res.command, res.name, res.args, message, engine, outcome);
    }
  }

  /** botDev returns only `false` or a bare string, so a command it guards never gets an inhibitor response. */
  lemma BotDevSendsNothing(developerIds: seq<string>, message: Message)
    ensures Pass(Version(developerIds), message) == InhibitorRun([], false)
  {
    var results := Results([BotDevInhibitor(developerIds)], message);
    assert results == [BotDev(developerIds, message)];
    OneInhibitorResult(BotDev(developerIds, message));
  }

  /** The content `version` after any stored prefix names the registered `version` command with no arguments. */
  lemma VersionResolves(author: Author, guild: Guild, prefix: string, commands: map<string, Command>)
    requires !author.isClientUser && !author.isBot
    requires "version" in commands
    ensures Resolve(Message(author, Some(guild), prefix + "version"), Some(GuildConfig(prefix)), commands) ==
      Invoke("version", [], commands["version"])
  {
    var content := prefix + "version";
    ConcatSlices(prefix, "version");
    assert StartsWith(content, prefix);
    SplitWsSingle("version");
    LowerKeepsLowercase("version");
  }

  /** The developer-only `version` command runs for an author who is not a developer. */
  lemma NonDeveloperRunsVersion(author: Author, guild: Guild, prefix: string, ids: seq<string>,
                                commands: map<string, Command>, engine: Engine)
    requires !author.isClientUser && !author.isBot && author.id !in ids
    requires "version" in commands && commands["version"] == Version(ids)
    ensures BotDev(ids, Message(author, Some(guild), prefix + "version")) == Reason("not-developer")
    ensures Dispatch(Message(author, Some(guild), prefix + "version"), Some(GuildConfig(prefix)), commands, engine, Completes) ==
      [Execute("version", [])]
  {
    var message := Message(author, Some(guild), prefix + "version");
    VersionResolves(author, guild, prefix, commands);
    BotDevSendsNothing(ids, message);
    InhibitorsNeverBlock(Version(ids), "version", [], message, engine, Completes);
  }

  // ---- The pass as evidently intended: the first objection stops the command ----

  /** A truthy result that is not a thrown error: a non-empty reason string, or any object. */
  predicate Objects(i: Inhibition) {
    (i.Reason? && i.reason != "") || i.Detailed?
  }

  /** The first result that objects or throws, if any. */
  function FirstStop(results: seq<Inhibition>): (r: Option<nat>)
    ensures r.Some? ==> r.value < |results| && (Objects(results[r.value]) || Throwing(results[r.value]))
    ensures r.Some? ==> forall k :: 0 <= k < r.value ==> !Objects(results[k]) && !Throwing(results[k])
    ensures r.None? ==> forall k :: 0 <= k < |results| ==> !Objects(results[k]) && !Throwing(results[k])
    decreases |results|
  {
    if results == [] then None
    else if Objects(results[0]) || Throwing(results[0]) then Some(0)
    else
      var rest := FirstStop(results[1..]);
      assert forall k :: 0 <= k < |results[1..]| ==> results[1..][k] == results[k + 1];
      if rest.Some? then Some(rest.value + 1) else None
  }

  /**
   * The corrected invocation: results are read in order until one objects, which
   * stops the command (sending its response when it has a reason and a response),
   * or throws, which gets the error reply; with no objection it goes on as before.
   */
  function RunCommandGated(command: Command, name: string, args: seq<string>, message: Message, engine: Engine,
                           outcome: HandlerOutcome): seq<Effect> {
    var results := if command.inhibitors.Some? then Results(command.inhibitors.value, message) else [];
    var stop := FirstStop(results);
    if stop.Some? then
      var r := results[stop.value];
      if Throwing(r) then [Reply(ErrorReply)]
      else if Responding(r) then [Send(r.response, DefaultOptions)]
      else []
    else RunCommand(command, name, args, message, engine, outcome)
  }

  /**
   * With the gate, an objection keeps the handler from running and sends at most
   * its own response; without one the gated and the written pass agree.
   */
  lemma GatedPassBlocks(command: Command, name: string, args: seq<string>, message: Message, engine: Engine,
                        outcome: HandlerOutcome)
    requires command.inhibitors.Some?
    ensures (exists k :: 0 <= k < |command.inhibitors.value| && Objects(command.inhibitors.value[k](message))) ==>
      && (forall e :: e in RunCommandGated(command, name, args, message, engine, outcome) ==> !e.Execute?)
      && |RunCommandGated(command, name, args, message, engine, outcome)| <= 1
    ensures (forall k :: 0 <= k < |command.inhibitors.value| ==>
               !Objects(command.inhibitors.value[k](message)) && !Throwing(command.inhibitors.value[k](message))) ==>
      RunCommandGated(command, name, args, message, engine, outcome) == RunCommand(command, name, args, message, engine, outcome)
  {
    var results := Results(command.inhibitors.value, message);
    if exists k :: 0 <= k < |command.inhibitors.value| && Objects(command.inhibitors.value[k](message)) {
      var k :| 0 <= k < |command.inhibitors.value| && Objects(command.inhibitors.value[k](message));
      assert Objects(results[k]);
      assert FirstStop(results).Some?;
    }
  }

  /** Gated, a non-developer's `version` is silently refused. */
  lemma GatedRefusesNonDeveloper(author: Author, guild: Guild, content: string, ids: seq<string>,
                                 engine: Engine, outcome: HandlerOutcome)
    requires author.id !in ids
    ensures RunCommandGated(Version(ids), "version", [], Message(author, Some(guild), content), engine, outcome) == []
  {
    var message := Message(author, Some(guild), content);
    var results := Results([BotDevInhibitor(ids)], message);
    assert results[0] == Reason("not-developer");
    assert FirstStop(results) == Some(0);
  }
}
