/**
 * The command collection of src/commands/index.js: an insertion-ordered map from
 * command name to descriptor, filled by `registerCommand` and then given the help
 * descriptor generated from what was registered before it.
 */
module Registry {
  import opened Js
  import opened Commands
  import opened Help

  /** The values of an insertion-ordered map, in key order. */
  function ValuesOf(names: seq<string>, entries: map<string, Command>): (r: seq<Command>)
    requires forall k :: 0 <= k < |names| ==> names[k] in entries
    ensures |r| == |names|
    ensures forall k :: 0 <= k < |names| ==> r[k] == entries[names[k]]
  {
    if names == [] then [] else [entries[names[0]]] + ValuesOf(names[1..], entries)
  }

  function NamesOf(cmds: seq<Command>): (r: seq<string>)
    ensures |r| == |cmds|
    ensures forall k :: 0 <= k < |cmds| ==> r[k] == cmds[k].name
  {
    if cmds == [] then [] else [cmds[0].name] + NamesOf(cmds[1..])
  }

  /** A `Discord.Collection<string, Command>`: keys in first-insertion order, and the map. */
  class CommandRegistry {
    var names: seq<string>
    var entries: map<string, Command>

    /** Keys are distinct and are exactly the keys of the map. */
    ghost predicate Valid()
      reads this
    {
      && (forall i, j :: 0 <= i < j < |names| ==> names[i] != names[j])
      && (forall k :: k in entries <==> k in names)
    }

    constructor ()
      ensures Valid() && names == [] && entries == map[]
    {
      names := [];
      entries := map[];
    }

    /** `commands.set(name, command)`: a new key goes last; an existing key keeps its place and gets the new value. */
    method Set(name: string, command: Command)
      requires Valid()
      modifies this
      ensures Valid()
      ensures entries == old(entries)[name := command]
      ensures names == if name in old(entries) then old(names) else old(names) + [name]
    {
      if name !in entries {
        names := names + [name];
      }
      entries := entries[name := command];
    }

    /** `registerCommand`: store the descriptor under its own name, the last registration winning. */
    method Register(command: Command)
      requires Valid()
      modifies this
      ensures Valid()
      ensures entries == old(entries)[command.name := command]
      ensures names == if command.name in old(entries) then old(names) else old(names) + [command.name]
    {
      Set(command.name, command);
    }

    /** The descriptors in iteration order, as `filter`, `map` and `find` see them. */
    function Values(): (r: seq<Command>)
      reads this
      requires Valid()
      ensures |r| == |names|
      ensures forall k :: 0 <= k < |names| ==> r[k] == entries[names[k]]
    {
      ValuesOf(names, entries)
    }
  }

  /**
   * The module body of src/commands/index.js: sixteen registrations in order, the
   * help state generated from the collection as it then is, and the help descriptor
   * inserted last under 'help'.
   */
  method BuildCommands(developerIds: seq<string>) returns (commands: CommandRegistry, help: HelpState)
    ensures fresh(commands) && commands.Valid()
    ensures commands.names == NamesOf(Registered(developerIds)) + ["help"]
    ensures |commands.names| == 17
    ensures help == HelpGen(Registered(developerIds))
    ensures commands.Values() == Registered(developerIds) + [HelpCommand]
  {
    var cmds := Registered(developerIds);
    RegisteredNamesDistinct();
    commands, help := BuildFrom(cmds);
  }

  /** The same steps for any list of distinctly named descriptors none of which is named 'help'. */
  method BuildFrom(cmds: seq<Command>) returns (commands: CommandRegistry, help: HelpState)
    requires forall i, j :: 0 <= i < j < |cmds| ==> cmds[i].name != cmds[j].name
    requires forall i :: 0 <= i < |cmds| ==> cmds[i].name != "help"
    ensures fresh(commands) && commands.Valid()
    ensures commands.names == NamesOf(cmds) + ["help"]
    ensures help == HelpGen(cmds)
    ensures commands.Values() == cmds + [HelpCommand]
  {
    commands := new CommandRegistry();
    RegisterInOrder(commands, cmds);
    help := HelpGen(commands.Values());
    ghost var names, entries := commands.names, commands.entries;
    assert "help" !in names;
    commands.Set(HelpCommand.name, HelpCommand);
    ValuesAfterInsert(names, entries, "help", HelpCommand);
  }

  /** Inserting a new key appends its value to the values in key order. */
  lemma ValuesAfterInsert(names: seq<string>, entries: map<string, Command>, name: string, v: Command)
    requires forall k :: 0 <= k < |names| ==> names[k] in entries
    requires name !in names
    ensures ValuesOf(names + [name], entries[name := v]) == ValuesOf(names, entries) + [v]
  {
    var after := ValuesOf(names + [name], entries[name := v]);
    forall k | 0 <= k < |names| ensures after[k] == ValuesOf(names, entries)[k] {
      assert (names + [name])[k] == names[k] != name;
    }
    assert after[|names|] == v;
  }

  /**
   * The `registerCommand` calls, one per descriptor and in the order given (the
   * source writes the sixteen calls out one after another).
   */
  method RegisterInOrder(commands: CommandRegistry, cmds: seq<Command>)
    requires commands.Valid() && commands.names == [] && commands.entries == map[]
    requires forall i, j :: 0 <= i < j < |cmds| ==> cmds[i].name != cmds[j].name
    modifies commands
    ensures commands.Valid()
    ensures commands.names == NamesOf(cmds)
    ensures commands.Values() == cmds
  {
    ghost var ns := NamesOf(cmds);
    assert forall i, j :: 0 <= i < j < |ns| ==> ns[i] != ns[j];
    for k := 0 to |cmds|
      invariant commands.Valid()
      invariant commands.names == ns[..k]
      invariant forall i :: 0 <= i < k ==> commands.entries[ns[i]] == cmds[i]
    {
      NewNameAt(ns, k);
      commands.Register(cmds[k]);
    }
    assert ns[..|cmds|] == ns;
  }

  /** A name in a list of distinct names does not occur before its position. */
  lemma NewNameAt(ns: seq<string>, k: nat)
    requires k < |ns|
    requires forall i, j :: 0 <= i < j < |ns| ==> ns[i] != ns[j]
    ensures ns[..k + 1] == ns[..k] + [ns[k]]
    ensures ns[k] !in ns[..k]
  {
    assert ns[..k + 1] == ns[..k] + [ns[k]];
    forall i | 0 <= i < k ensures ns[..k][i] != ns[k] {
      assert ns[..k][i] == ns[i];
    }
  }

  /**
   * The listing was rendered before 'help' was inserted, so no listed descriptor is
   * the help command; the live lookup used for a target still resolves 'help'.
   */
  lemma HelpResolvesOnlyThroughLiveLookup(developerIds: seq<string>, live: map<string, Command>)
    requires "help" in live && live["help"] == HelpCommand
    ensures forall k :: 0 <= k < |Visible(Registered(developerIds))| ==> Visible(Registered(developerIds))[k].name != "help"
    ensures HelpReply(HelpGen(Registered(developerIds)), live, ["help"]) == CmdString(HelpCommand)
  {
    var cmds := Registered(developerIds);
    RegisteredNamesDistinct();
    NameNotListed(cmds, "help");
  }

  /** A name no descriptor has is not in the listing. */
  lemma NameNotListed(cmds: seq<Command>, name: string)
    requires forall i :: 0 <= i < |cmds| ==> cmds[i].name != name
    ensures forall k :: 0 <= k < |Visible(cmds)| ==> Visible(cmds)[k].name != name
  {
    forall k | 0 <= k < |Visible(cmds)| ensures Visible(cmds)[k].name != name {
      var c := Visible(cmds)[k];
      assert c in cmds;
    }
  }

  /**
   * The only inhibited descriptor registered is the hidden 'version', so the
   * restricted-use footnote is shown although no listed entry carries a `*`.
   */
  lemma FootnoteComesFromHiddenCommand(developerIds: seq<string>)
    ensures HelpGen(Registered(developerIds)).hasInhibitedCmds
    ensures forall k :: 0 <= k < |Visible(Registered(developerIds))| ==> Visible(Registered(developerIds))[k].inhibitors.None?
  {
    var cmds := Registered(developerIds);
    RegisteredRestrictions(developerIds);
    assert cmds[1].inhibitors.Some?;
    forall k | 0 <= k < |Visible(cmds)| ensures Visible(cmds)[k].inhibitors.None? {
      var c := Visible(cmds)[k];
      assert c in cmds && !c.hidden;
      var i :| 0 <= i < 16 && cmds[i] == c;
      assert i != 1;
    }
  }
}
