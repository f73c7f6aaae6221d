/**
 * The help command of src/commands/help.js: `cmdString` renders one descriptor, the
 * factory renders the full listing once from the descriptors it is given, and
 * `execute` answers with the listing or with the entry of one named command,
 * looked up in the live registry.
 */
module Help {
  import opened Js
  import opened Utils
  import opened Platform
  import opened Commands

  function UsagePart(usage: string): string {
    if usage != "" then " - `" + usage + "`" else ""
  }

  /** `cmdString`: bold code-quoted name, `*` for an inhibited command, the usage, then the description on its own line. */
  function CmdString(c: Command): string {
    "**`" + c.name + "`" + (if c.inhibitors.Some? then "*" else "") + "** " + UsagePart(c.usage) + "\n" + c.description
  }

  /** Where the text after the bold name ends. */
  function HeadLength(c: Command): nat {
    |c.name| + (if c.inhibitors.Some? then 8 else 7)
  }

  /**
   * How an entry reads back: it opens with the code-quoted name; right after the
   * closing backquote comes `*` iff the command has inhibitors, and then the `** `
   * that closes the bold head; a newline comes straight
   * after the bold head iff there is no usage, otherwise the quoted usage does; the
   * entry ends with a newline and the description.
   */
  lemma CmdStringLayout(c: Command)
    ensures var r := CmdString(c); var n := |c.name|; var h := HeadLength(c);
      && |r| == h + |UsagePart(c.usage)| + 1 + |c.description|
      && r[..n + 4] == "**`" + c.name + "`"
      && r[n + 4..h] == (if c.inhibitors.Some? then "*** " else "** ")
      && r[h - 3..h] == "** "
      && (r[h] == '\n' <==> c.usage == "")
      && (c.usage != "" ==> r[h..h + |c.usage| + 5] == " - `" + c.usage + "`")
      && r[|r| - |c.description| - 1] == '\n'
      && r[|r| - |c.description|..] == c.description
  {
    CmdStringHead(c);
    CmdStringUsage(c);
    CmdStringTail(c);
  }

  /** The bold head: code-quoted name, optional `*`, then `** `. */
  lemma CmdStringHead(c: Command)
    ensures var r := CmdString(c); var n := |c.name|; var h := HeadLength(c);
      && |r| == h + |UsagePart(c.usage)| + 1 + |c.description|
      && r[..n + 4] == "**`" + c.name + "`"
      && r[n + 4..h] == (if c.inhibitors.Some? then "*** " else "** ")
      && r[h - 3..h] == "** "
  {
    var r := CmdString(c);
    var n := |c.name|;
    var star := if c.inhibitors.Some? then "*" else "";
    var head := "**`" + c.name + "`" + star + "** ";
    var rest := UsagePart(c.usage) + "\n" + c.description;
    assert r == head + rest;
    ConcatSlices(head, rest);
    assert r[..n + 4] == head[..n + 4] == "**`" + c.name + "`";
    var h := HeadLength(c);
    assert |head| == h;
    assert r[n + 4..h] == head[n + 4..h] == star + "** ";
    assert r[h - 3..h] == head[h - 3..h] == "** ";
  }

  /** What follows the bold head: the quoted usage, or straight away the newline. */
  lemma CmdStringUsage(c: Command)
    ensures var r := CmdString(c); var h := HeadLength(c);
      && h < |r|
      && (r[h] == '\n' <==> c.usage == "")
      && (c.usage != "" ==> h + |c.usage| + 5 <= |r| && r[h..h + |c.usage| + 5] == " - `" + c.usage + "`")
  {
    var r := CmdString(c);
    var star := if c.inhibitors.Some? then "*" else "";
    var head := "**`" + c.name + "`" + star + "** ";
    var h := HeadLength(c);
    assert |head| == h;
    var rest := UsagePart(c.usage) + "\n" + c.description;
    assert r == head + rest;
    ConcatSlices(head, rest);
    if c.usage != "" {
      assert r[h] == rest[0] == UsagePart(c.usage)[0] == ' ';
      assert rest[..|c.usage| + 5] == UsagePart(c.usage);
      assert r[h..h + |c.usage| + 5] == rest[..|c.usage| + 5];
    } else {
      assert r[h] == rest[0] == '\n';
    }
  }

  /** The entry ends with a newline and the description. */
  lemma CmdStringTail(c: Command)
    ensures var r := CmdString(c);
      && |c.description| < |r|
      && r[|r| - |c.description| - 1] == '\n'
      && r[|r| - |c.description|..] == c.description
  {
    var r := CmdString(c);
    var star := if c.inhibitors.Some? then "*" else "";
    var a := "**`" + c.name + "`" + star + "** " + UsagePart(c.usage) + "\n";
    assert r == a + c.description;
    ConcatSlices(a, c.description);
    assert r[|a| - 1] == a[|a| - 1] == '\n';
  }


  /** The descriptors that are not hidden, in order. */
  function Visible(cmds: seq<Command>): (r: seq<Command>)
    ensures |r| <= |cmds|
    ensures forall i :: 0 <= i < |r| ==> !r[i].hidden && r[i] in cmds
  {
    if cmds == [] then []
    else if cmds[0].hidden then Visible(cmds[1..])
    else [cmds[0]] + Visible(cmds[1..])
  }

  /** Filtering keeps the order: the visible part of a concatenation is the concatenation of the visible parts. */
  lemma {:induction false} VisibleAppend(a: seq<Command>, b: seq<Command>)
    ensures Visible(a + b) == Visible(a) + Visible(b)
    decreases |a|
  {
    if a != [] {
      assert (a + b)[1..] == a[1..] + b;
      VisibleAppend(a[1..], b);
    } else {
      assert a + b == b;
    }
  }

  /** Every descriptor that is not hidden is listed. */
  lemma {:induction false} VisibleContains(cmds: seq<Command>, i: nat)
    requires i < |cmds| && !cmds[i].hidden
    ensures cmds[i] in Visible(cmds)
    decreases |cmds|
  {
    if i > 0 {
      VisibleContains(cmds[1..], i - 1);
    }
  }

  /** The `cmdString` entries of the descriptors, in order. */
  function Entries(cmds: seq<Command>): seq<string> {
    seq(|cmds|, i requires 0 <= i < |cmds| => CmdString(cmds[i]))
  }

  const HelpHeader: string := "**`help`**\nDisplay this help page\n"
  const RestrictedFootnote: string := "\nCommands marked with `*` may have restricted use"
  const RestrictedNote: string := "\nThis command may have restricted use"

  /** `fullHelpText`: the header, then the entries of the visible descriptors joined by newlines. */
  function FullHelpText(cmds: seq<Command>): string {
    HelpHeader + Join(Entries(Visible(cmds)), "\n")
  }

  /** `hasInhibitedCmds`: some descriptor, hidden or not, has an `inhibitors` field. */
  predicate HasInhibitedCmds(cmds: seq<Command>) {
    exists i :: 0 <= i < |cmds| && cmds[i].inhibitors.Some?
  }

  /** What the factory captures when it runs: the listing and the footnote flag. */
  datatype HelpState = HelpState(fullHelpText: string, hasInhibitedCmds: bool)

  function HelpGen(cmds: seq<Command>): HelpState {
    HelpState(FullHelpText(cmds), HasInhibitedCmds(cmds))
  }

  /** Where the entry of the `k`-th listed descriptor starts in the listing. */
  function ListingOffset(cmds: seq<Command>, k: nat): nat
    requires k < |Visible(cmds)|
  {
    |HelpHeader| + JoinOffset(Entries(Visible(cmds)), "\n", k)
  }

  /**
   * The listing opens with the fixed header; then each descriptor that is not hidden
   * has its `cmdString` entry, in registration order, with a newline between two
   * consecutive entries; the text ends with the last entry, or with the header when
   * no descriptor is listed.
   */
  lemma ListingLayout(cmds: seq<Command>)
    ensures |HelpHeader| <= |HelpGen(cmds).fullHelpText|
    ensures HelpGen(cmds).fullHelpText[..|HelpHeader|] == HelpHeader
    ensures Visible(cmds) == [] ==> HelpGen(cmds).fullHelpText == HelpHeader
    ensures var es := Entries(Visible(cmds));
      es != [] ==>
        && ListingOffset(cmds, 0) == |HelpHeader|
        && |HelpGen(cmds).fullHelpText| == ListingOffset(cmds, |es| - 1) + |es[|es| - 1]|
    ensures var es := Entries(Visible(cmds));
      forall k :: 0 <= k < |es| ==> OccursAt(HelpGen(cmds).fullHelpText, es[k], ListingOffset(cmds, k))
    ensures var es := Entries(Visible(cmds));
      forall p {:trigger es[p]} :: 0 <= p < |es| - 1 ==> ListingOffset(cmds, p + 1) == ListingOffset(cmds, p) + |es[p]| + 1
    ensures var es := Entries(Visible(cmds));
      forall p :: 0 <= p < |es| - 1 ==> OccursAt(HelpGen(cmds).fullHelpText, "\n", ListingOffset(cmds, p) + |es[p]|)
  {
    var t := HelpGen(cmds).fullHelpText;
    assert t == HelpHeader + Join(Entries(Visible(cmds)), "\n");
    var es := Entries(Visible(cmds));
    forall k | 0 <= k < |es| {
      ListingEntry(cmds, k);
    }
    ListingSteps(cmds);
    ListingNewlines(cmds);
    ListingEnd(cmds);
  }

  /** Each entry but the last is followed by one character and then the next entry. */
  lemma ListingSteps(cmds: seq<Command>)
    ensures var es := Entries(Visible(cmds));
      forall p {:trigger es[p]} :: 0 <= p < |es| - 1 ==> ListingOffset(cmds, p + 1) == ListingOffset(cmds, p) + |es[p]| + 1
  {
    var es := Entries(Visible(cmds));
    forall p | 0 <= p < |es| - 1 {
      ListingStep(cmds, p);
    }
  }

  /** The newlines between consecutive entries. */
  lemma ListingNewlines(cmds: seq<Command>)
    ensures var es := Entries(Visible(cmds));
      forall p :: 0 <= p < |es| - 1 ==> OccursAt(HelpGen(cmds).fullHelpText, "\n", ListingOffset(cmds, p) + |es[p]|)
  {
    var es := Entries(Visible(cmds));
    forall p | 0 <= p < |es| - 1 {
      ListingNewline(cmds, p);
    }
  }

  /** Where the listing ends. */
  lemma ListingEnd(cmds: seq<Command>)
    ensures Visible(cmds) == [] ==> HelpGen(cmds).fullHelpText == HelpHeader
    ensures var es := Entries(Visible(cmds));
      es != [] ==>
        && ListingOffset(cmds, 0) == |HelpHeader|
        && |HelpGen(cmds).fullHelpText| == ListingOffset(cmds, |es| - 1) + |es[|es| - 1]|
  {
    var es := Entries(Visible(cmds));
    HeaderJoinLength(HelpGen(cmds).fullHelpText, HelpHeader, es, "\n");
    if es != [] {
      assert ListingOffset(cmds, |es| - 1) == |HelpHeader| + JoinOffset(es, "\n", |es| - 1);
    }
  }

  /** One entry of the listing. */
  lemma ListingEntry(cmds: seq<Command>, k: nat)
    requires k < |Visible(cmds)|
    ensures OccursAt(HelpGen(cmds).fullHelpText, Entries(Visible(cmds))[k], ListingOffset(cmds, k))
  {
    var t, es := HelpGen(cmds).fullHelpText, Entries(Visible(cmds));
    HeaderJoinPart(t, HelpHeader, es, "\n", k);
    assert ListingOffset(cmds, k) == |HelpHeader| + JoinOffset(es, "\n", k);
  }

  /** The entry after an entry that is not the last starts one character after it ends. */
  lemma ListingStep(cmds: seq<Command>, p: nat)
    requires p + 1 < |Visible(cmds)|
    ensures ListingOffset(cmds, p + 1) == ListingOffset(cmds, p) + |Entries(Visible(cmds))[p]| + 1
  {
    HeaderJoinSeparator(HelpGen(cmds).fullHelpText, HelpHeader, Entries(Visible(cmds)), "\n", p);
  }

  /** The newline after an entry that is not the last. */
  lemma ListingNewline(cmds: seq<Command>, p: nat)
    requires p + 1 < |Visible(cmds)|
    ensures OccursAt(HelpGen(cmds).fullHelpText, "\n", ListingOffset(cmds, p) + |Entries(Visible(cmds))[p]|)
  {
    var t, es := HelpGen(cmds).fullHelpText, Entries(Visible(cmds));
    HeaderJoinSeparator(t, HelpHeader, es, "\n", p);
    assert ListingOffset(cmds, p) == |HelpHeader| + JoinOffset(es, "\n", p);
  }

  /** The descriptor the factory returns. */
  const HelpCommand: Command := Command("help",
    "Displays help for all commands or a specific command", "help [?command]",
    Some(ArgOpts(None, Some(1), None, NoErrorMsg, NoStructure)), false, None, Sync)

  /** The one text `execute` sends for `args`, given the captured state and the live registry. */
  function HelpReply(state: HelpState, live: map<string, Command>, args: seq<string>): (r: string)
    ensures (args == [] || args[0] == "") ==>
      r == state.fullHelpText + (if state.hasInhibitedCmds then RestrictedFootnote else "")
    ensures args != [] && args[0] != "" && (args[0] !in live || live[args[0]].hidden) ==>
      r == "Unrecognized command"
    ensures args != [] && args[0] != "" && args[0] in live && !live[args[0]].hidden ==>
      r == CmdString(live[args[0]]) + (if live[args[0]].inhibitors.Some? then RestrictedNote else "")
  {
    var target := if args == [] then "" else args[0];
    if target == "" then
      state.fullHelpText + (if state.hasInhibitedCmds then RestrictedFootnote else "")
    else if target !in live || live[target].hidden then "Unrecognized command"
    else CmdString(live[target]) + (if live[target].inhibitors.Some? then RestrictedNote else "")
  }

  /** `execute`: reassigns the reply text case by case and sends exactly once. */
  method Execute(state: HelpState, live: map<string, Command>, args: seq<string>) returns (sends: seq<Effect>)
    ensures sends == [Send(HelpReply(state, live, args), DefaultOptions)]
  {
    var helpText := state.fullHelpText;
    if state.hasInhibitedCmds {
      helpText := helpText + RestrictedFootnote;
    }
    var remaining := args;
    var targetCmd := "";
    if remaining != [] {
      targetCmd := remaining[0];
      remaining := remaining[1..];
    }
    if targetCmd != "" {
      if targetCmd !in live || live[targetCmd].hidden {
        helpText := "Unrecognized command";
      } else {
        var command := live[targetCmd];
        helpText := CmdString(command);
        if command.inhibitors.Some? {
          helpText := helpText + RestrictedNote;
        }
      }
    }
    assert helpText == HelpReply(state, live, args);
    sends := [Send(helpText, DefaultOptions)];
  }

  /**
   * The entry for a named visible command is the same text the full listing shows
   * for it, when the live descriptor is one the listing was generated from; an
   * inhibited one is followed by the restricted-use note.
   */
  lemma TargetEntryIsListed(cmds: seq<Command>, live: map<string, Command>, t: string, i: nat)
    requires t != "" && t in live && !live[t].hidden
    requires i < |cmds| && cmds[i] == live[t]
    ensures CmdString(live[t]) in Entries(Visible(cmds))
    ensures HelpReply(HelpGen(cmds), live, [t]) ==
      CmdString(live[t]) + (if live[t].inhibitors.Some? then RestrictedNote else "")
  {
    var c := cmds[i];
    VisibleContains(cmds, i);
    EntryOfMember(Visible(cmds), c);
  }

  lemma EntryOfMember(v: seq<Command>, c: Command)
    requires c in v
    ensures CmdString(c) in Entries(v)
  {
    var j :| 0 <= j < |v| && v[j] == c;
    assert Entries(v)[j] == CmdString(c);
  }

  /** Only the first argument is read: whatever follows it leaves the reply unchanged. */
  lemma LaterArgumentsIgnored(state: HelpState, live: map<string, Command>, t: string, rest: seq<string>)
    ensures HelpReply(state, live, [t] + rest) == HelpReply(state, live, [t])
  {
    assert ([t] + rest)[0] == t;
  }

  /**
   * Lookup is by the exact target string, with no case folding: a target absent from
   * the registry is unrecognized even when its lower-case form names a listed command,
   * which that form itself would bring up.
   */
  lemma TargetLookupIsExact(state: HelpState, live: map<string, Command>, t: string, rest: seq<string>)
    requires t != "" && t !in live
    ensures HelpReply(state, live, [t] + rest) == "Unrecognized command"
    ensures Lower(t) in live && !live[Lower(t)].hidden ==>
      HelpReply(state, live, [Lower(t)] + rest) != HelpReply(state, live, [t] + rest)
  {
    LaterArgumentsIgnored(state, live, t, rest);
    var l := Lower(t);
    if l in live && !live[l].hidden {
      LaterArgumentsIgnored(state, live, l, rest);
      assert l != "";
      var r := HelpReply(state, live, [l]);
      assert r[0] == '*';
    }
  }
}
