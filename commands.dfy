/**
 * Command descriptors (the `Command` typedef of src/commands/index.js) and the
 * descriptor fields of the commands the bot registers. Handler bodies are not part
 * of this model; a descriptor only records whether its handler is an async function.
 */
module Commands {
  import opened Js
  import opened Utils
  import opened Inhibitors

  datatype HandlerKind = Sync | Async

  /**
   * A descriptor. `usage` and `description` are "" when absent; `arguments` is the
   * only field the dispatcher validates against (a descriptor that declares `args`
   * has `arguments == None` here); `inhibitors` is `None` when the field is absent.
   */
  datatype Command = Command(
    name: string,
    description: string,
    usage: string,
    arguments: Option<ArgOpts>,
    hidden: bool,
    inhibitors: Option<seq<Inhibitor>>,
    kind: HandlerKind)

  /** `{ exact: 2, errorMsg: { highMsg, lowMsg }, structure: [[USERS_PATTERN, p], [p, USERS_PATTERN]] }` */
  function MentionPairArgs(high: string, low: string, p: Pattern): ArgOpts {
    ArgOpts(None, None, Some(2), PerKind(high, low, ""),
      Patterns([Many([UsersPattern, p]), Many([p, UsersPattern])]))
  }

  const GroupPairArgs: ArgOpts := MentionPairArgs(
    "Too many arguments, max 2, one user mention and one group name",
    "Not enough arguments, require 2, user mention and group name",
    GroupNamePattern)

  const SetPairArgs: ArgOpts := MentionPairArgs(
    "Too many arguments, max 2, one user mention and one set name",
    "Not enough arguments, require 2, user mention and set name",
    SetNamePattern)

  /** createsetfromgroup: `exact: 1` with a flat two-pattern structure. */
  const CreateSetFromGroupArgs: ArgOpts :=
    ArgOpts(None, None, Some(1), NoErrorMsg, Patterns([One(SetNamePattern), One(GroupNamePattern)]))

  /** updateset: `min: 1, max: 2` with the alternatives [name] and [name, mention]. */
  const UpdateSetArgs: ArgOpts :=
    ArgOpts(Some(1), Some(2), None, NoErrorMsg,
      Patterns([Many([SetNamePattern]), Many([SetNamePattern, UsersPattern])]))

  const Ping: Command := Command("ping", "Ping Pong response to check is bot is alive", "", None, false, None, Sync)

  function Version(developerIds: seq<string>): Command {
    Command("version", "Display active version", "", None, true, Some([BotDevInhibitor(developerIds)]), Sync)
  }

  const Groups: Command := Command("groups",
    "List all current groups. If more than 3 request a specific group's details to see member list",
    "groups [?group name]", None, false, None, Async)
  const CreateGroup: Command := Command("creategroup",
    "Create a new group of members to quickly save sets of nicknames",
    "creategroup [group name] [@member1] [@member2] [@member3] ...", None, false, None, Async)
  const DelGroup: Command := Command("delgroup",
    "Remove a group from this server, there is no confirmation, make sure you really want to do this.",
    "delgroup [group name]", None, false, None, Async)
  const AddToGroup: Command := Command("addtogroup", "Add a user to an existing group",
    "addtogroup [@mention] [group name]", Some(GroupPairArgs), false, None, Async)
  const RemoveFromGroup: Command := Command("removefromgroup", "Remove a user from an existing group",
    "removefromgroup [@mention] [group name]", Some(GroupPairArgs), false, None, Async)
  const Sets: Command := Command("sets",
    "List all sets for this server. If more than 3 specify a set name to see details",
    "sets [?set name]", None, false, None, Async)
  const CreateSet: Command := Command("createset",
    "Create a new set of members using their current nicknames as identities",
    "createset [set name] [@member1] [@member2] [@member3]...", None, false, None, Async)
  const DelSet: Command := Command("delset",
    "Remove a set from this server, there is no confirmation, make sure you really want to do this.",
    "delset [set name]", None, false, None, Async)
  const AddToSet: Command := Command("addtoset", "Add a user to an existing identity set",
    "addtoset [@mention] [set name]", Some(SetPairArgs), false, None, Async)
  const CreateSetFromGroup: Command := Command("createsetfromgroup", "Add a user to an existing identity set",
    "creatsetfromgroup [set name] [group name]", Some(CreateSetFromGroupArgs), false, None, Async)
  const RemoveFromSet: Command := Command("removefromset", "Remove a user from an existing identity set",
    "removefromset [@mention] [set name]", Some(SetPairArgs), false, None, Async)
  const UpdateSet: Command := Command("updateset",
    "Update the identities for a given set using the members current nicknames",
    "updateset [set name] [?@member]", Some(UpdateSetArgs), false, None, Async)
  const UpdateSelfInSet: Command := Command("updateselfinset",
    "Update your own nickname in the specified set. Uses current nickname if not specified",
    "updateselfinset [set name] [new nickname]", None, false, None, Sync)
  const ActivateSet: Command := Command("activateset", "Apply a set of identities",
    "activate [set name]", None, false, None, Async)

  /** The names under which src/commands/index.js registers its sixteen descriptors, in order. */
  const RegisteredNames: seq<string> := ["ping", "version", "groups", "creategroup", "delgroup", "addtogroup",
    "removefromgroup", "sets", "createset", "delset", "addtoset", "createsetfromgroup", "removefromset", "updateset",
    "updateselfinset", "activateset"]

  /** The sixteen names are distinct, and none of them is 'help'. */
  lemma RegisteredNamesDistinct()
    ensures forall i, j :: 0 <= i < j < |RegisteredNames| ==> RegisteredNames[i] != RegisteredNames[j]
    ensures "help" !in RegisteredNames
  {
  }

  /** The sixteen descriptors in the order src/commands/index.js registers them. */
  function Registered(developerIds: seq<string>): (r: seq<Command>)
    ensures |r| == 16
    ensures forall i :: 0 <= i < 16 ==> r[i].name == RegisteredNames[i]
  {
    [Ping, Version(developerIds), Groups, CreateGroup, DelGroup, AddToGroup, RemoveFromGroup,
     Sets, CreateSet, DelSet, AddToSet, CreateSetFromGroup, RemoveFromSet, UpdateSet,
     UpdateSelfInSet, ActivateSet]
  }

  // ---- The declared argument specifications, checked against the validator ----

  /** 'version' is the one hidden descriptor and the one with inhibitors. */
  lemma RegisteredRestrictions(developerIds: seq<string>)
    ensures Registered(developerIds)[1] == Version(developerIds)
    ensures forall i :: 0 <= i < 16 && i != 1 ==> !Registered(developerIds)[i].hidden
    ensures forall i :: 0 <= i < 16 && i != 1 ==> Registered(developerIds)[i].inhibitors.None?
  {
  }

  /** `exact: 1` with a flat structure of two patterns: no argument list gets through. */
  lemma CreateSetFromGroupRejectsAll(args: seq<string>, engine: Engine)
    ensures Validation(args, Some(CreateSetFromGroupArgs), engine).Rejected?
  {
    var alts := Alternatives(CreateSetFromGroupArgs.structure.items);
    assert |alts| == 1 && alts[0].Some? && |alts[0].value| == 2;
    if |args| == 1 {
      assert !Fits(args, alts[0], engine);
    }
  }

  /**
   * updateset accepts only one or two arguments: a set name alone, or a set name
   * followed by a user mention; more or fewer get the count messages.
   */
  lemma UpdateSetAcceptsOneOrTwo(args: seq<string>, engine: Engine)
    requires NameSound(engine)
    ensures Validation(args, Some(UpdateSetArgs), engine) == Accepted <==>
      || (|args| == 1 && IsNameWord(args[0]))
      || (|args| == 2 && IsNameWord(args[0]) && engine(args[1], UsersPattern))
    ensures |args| > 2 ==> Validation(args, Some(UpdateSetArgs), engine) == Rejected("Too many arguments, max 2 allowed")
    ensures |args| == 0 ==> Validation(args, Some(UpdateSetArgs), engine) == Rejected("Not enough arguments, min 2 required")
  {
    var alts := Alternatives(UpdateSetArgs.structure.items);
    assert alts == [Some([SetNamePattern]), Some([SetNamePattern, UsersPattern])];
    assert NumberText(Some(2)) == "2";
    if |args| == 1 && IsNameWord(args[0]) {
      assert Fits(args, alts[0], engine);
    }
    if |args| == 2 && IsNameWord(args[0]) && engine(args[1], UsersPattern) {
      assert Fits(args, alts[1], engine);
    }
    if Validation(args, Some(UpdateSetArgs), engine) == Accepted {
      var k :| 0 <= k < |alts| && Fits(args, alts[k], engine);
      assert Conforms(args, alts[k].value, engine);
      assert engine(args[0], SetNamePattern);
    }
  }

  /** A two-alternative mention spec takes exactly two arguments, the mention on either side. */
  lemma MentionPairEitherOrder(high: string, low: string, p: Pattern, args: seq<string>, engine: Engine)
    ensures Validation(args, Some(MentionPairArgs(high, low, p)), engine) == Accepted <==>
      |args| == 2 && ((engine(args[0], UsersPattern) && engine(args[1], p)) ||
                      (engine(args[0], p) && engine(args[1], UsersPattern)))
  {
    var alts := Alternatives(MentionPairArgs(high, low, p).structure.items);
    assert alts == [Some([UsersPattern, p]), Some([p, UsersPattern])];
    if |args| == 2 {
      if engine(args[0], UsersPattern) && engine(args[1], p) {
        assert Fits(args, alts[0], engine);
      }
      if engine(args[0], p) && engine(args[1], UsersPattern) {
        assert Fits(args, alts[1], engine);
      }
    }
    if Validation(args, Some(MentionPairArgs(high, low, p)), engine) == Accepted {
      var k :| 0 <= k < |alts| && Fits(args, alts[k], engine);
      assert Conforms(args, alts[k].value, engine);
    }
  }

  /** addtoset's custom count messages replace the defaults; its structure message stays the default. */
  lemma SetPairMessages(args: seq<string>, engine: Engine)
    ensures |args| > 2 ==>
      Validation(args, Some(SetPairArgs), engine) == Rejected("Too many arguments, max 2, one user mention and one set name")
    ensures |args| < 2 ==>
      Validation(args, Some(SetPairArgs), engine) == Rejected("Not enough arguments, require 2, user mention and set name")
    ensures |args| == 2 && Validation(args, Some(SetPairArgs), engine) != Accepted ==>
      Validation(args, Some(SetPairArgs), engine) == Rejected("Incorrect argument types")
  {
  }

  /**
   * As written, updateset's low message names its maximum: a list with no arguments
   * is told the minimum is 2, although one set name alone is accepted.
   */
  lemma UpdateSetLowMessageMisstatesMinimum(engine: Engine)
    requires NameSound(engine)
    ensures Validation([], Some(UpdateSetArgs), engine) == Rejected("Not enough arguments, min 2 required")
    ensures Validation(["party"], Some(UpdateSetArgs), engine) == Accepted
    ensures IntendedValidation([], Some(UpdateSetArgs), engine) == Rejected("Not enough arguments, min 1 required")
    ensures IntendedValidation(["party"], Some(UpdateSetArgs), engine) == Accepted
  {
    UpdateSetAcceptsOneOrTwo([], engine);
    assert IsNameWord("party");
    UpdateSetAcceptsOneOrTwo(["party"], engine);
    assert NumberText(Some(1)) == "1";
  }
}
